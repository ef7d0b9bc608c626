/**
 Image references (`pkg/image/reference`): normalising a name into domain, repository and tag.  Lower-casing is
 any function on strings.
 */
module References {
  import opened Options
  import opened Text

  type Lower = string -> string

  datatype Named = Named(domain: string, raw: string, repo: string, repoTag: string, tag: string)

  const DEFAULT_DOMAIN := "docker.io"

  /** `unicode.IsSpace` */
  predicate IsSpace(c: char)
  {
    '\t' <= c <= '\r' || c == ' ' || c == '\U{0085}' || c == '\U{00A0}' || c == '\U{1680}'
    || '\U{2000}' <= c <= '\U{200A}' || c == '\U{2028}' || c == '\U{2029}' || c == '\U{202F}' || c == '\U{205F}'
      || c == '\U{3000}'
  }

  predicate NoSpace(s: string)
  {
    forall i :: 0 <= i < |s| ==> !IsSpace(s[i])
  }

  /** `strings.TrimSpace` */
  function TrimSpace(s: string): string
  {
    if s == "" then ""
    else if IsSpace(s[0]) then TrimSpace(s[1..])
    else if IsSpace(s[|s| - 1]) then TrimSpace(s[..|s| - 1])
    else s
  }

  predicate NamesDomain(x: string)
  {
    '.' in x || ':' in x || x == "localhost"
  }

  /** The domain and what follows it. */
  function SplitDomain(name: string): (string, string)
  {
    var i := IndexOf(name, '/');
    if i < |name| && NamesDomain(name[..i]) then (name[..i], name[i + 1..]) else (DEFAULT_DOMAIN, name)
  }

  function WithRepo(domain: string, rest: string): string
  {
    if domain == DEFAULT_DOMAIN && '/' !in rest then "sealerio/" + rest else rest
  }

  function WithTag(rest: string): string
  {
    if ':' !in rest then rest + ":latest" else rest
  }

  /** `normalizeDomainRepoTag` */
  function Normalize(name: string): (string, string)
  {
    var (domain, rest) := SplitDomain(name);
    (domain, WithTag(WithRepo(domain, rest)))
  }

  /** The index of the last occurrence, or -1. */
  function LastIndexOf(s: string, c: char): (i: int)
    ensures -1 <= i < |s|
  {
    if s == "" then -1 else if s[|s| - 1] == c then |s| - 1 else LastIndexOf(s[..|s| - 1], c)
  }

  predicate EndsWithTag(name: string)
  {
    LastIndexOf(name, ':') != -1 && LastIndexOf(name, ':') > LastIndexOf(name, '/')
  }

  /** `buildRaw` */
  function Raw(name: string): string
  {
    if EndsWithTag(name) then name else name + ":latest"
  }

  lemma WithTagHasColon(rest: string)
    ensures ':' in WithTag(rest)
  {
    assert (rest + ":latest")[|rest|] == ':';
  }

  /** `buildRepoAndTag`: its second index is inside the split for every normalised name. */
  function RepoAndTag(repoTag: string): (string, string)
    requires ':' in repoTag
  {
    IndexNone(repoTag, ':');
    var i := IndexOf(repoTag, ':');
    var splits := SplitOn(repoTag, ':');
    assert splits == [repoTag[..i]] + SplitOn(repoTag[i + 1..], ':');
    (splits[0], splits[1])
  }

  /** `ParseToNamed` */
  function ParseToNamed(text: string, lower: Lower): Option<Named>
  {
    var name := TrimSpace(text);
    if name == "" || !NoSpace(name) then None
    else
      var (domain, repoTag) := Normalize(name);
      WithTagHasColon(WithRepo(domain, SplitDomain(name).1));
      var (repo, tag) := RepoAndTag(repoTag);
      if lower(repo) != repo then None else Some(Named(domain, Raw(name), repo, repoTag, tag))
  }

  /** `CompleteName` */
  function CompleteName(n: Named): string
  {
    n.domain + "/" + n.repoTag
  }

  // ---------------------------------------------------------------- re-parsing

  lemma NothingToTrim(s: string)
    requires NoSpace(s)
    ensures TrimSpace(s) == s
  {
  }

  lemma NoSpaceConcat(a: string, b: string)
    requires NoSpace(a) && NoSpace(b)
    ensures NoSpace(a + b)
  {
  }

  lemma WithRepoOk(domain: string, rest: string)
    requires NoSpace(rest)
    ensures NoSpace(WithRepo(domain, rest)) && (domain == DEFAULT_DOMAIN ==> '/' in WithRepo(domain, rest))
    ensures ':' in WithRepo(domain, rest) <==> ':' in rest
  {
    assert ("sealerio/" + rest)[8] == '/';
    NoSpaceConcat("sealerio/", rest);
  }

  lemma WithTagOk(rest: string)
    requires NoSpace(rest)
    ensures NoSpace(WithTag(rest)) && ':' in WithTag(rest) && ('/' in rest ==> '/' in WithTag(rest))
  {
    WithTagHasColon(rest);
    NoSpaceConcat(rest, ":latest");
  }

  lemma NormalizeOk(name: string)
    requires NoSpace(name)
    ensures var (domain, repoTag) := Normalize(name);
            && '/' !in domain && NamesDomain(domain) && NoSpace(domain) && NoSpace(repoTag)
            && ':' in repoTag && (domain == DEFAULT_DOMAIN ==> '/' in repoTag)
  {
    var (domain, rest) := SplitDomain(name);
    assert DEFAULT_DOMAIN[6] == '.';
    WithRepoOk(domain, rest);
    WithTagOk(WithRepo(domain, rest));
  }

  lemma NormalizeComplete(domain: string, repoTag: string)
    requires '/' !in domain && NamesDomain(domain) && ':' in repoTag && (domain == DEFAULT_DOMAIN ==> '/' in repoTag)
    ensures Normalize(domain + "/" + repoTag) == (domain, repoTag)
  {
    IndexAfter(domain, '/', repoTag);
    assert domain + ['/'] + repoTag == domain + "/" + repoTag;
  }

  /** The same image, whatever the local tag name. */
  predicate SameImage(a: Named, b: Named)
  {
    a.domain == b.domain && a.repo == b.repo && a.repoTag == b.repoTag && a.tag == b.tag
  }

  lemma ParseIs(name: string, domain: string, repoTag: string, lower: Lower)
    requires name != "" && NoSpace(name) && Normalize(name) == (domain, repoTag) && ':' in repoTag
    ensures ParseToNamed(name, lower) ==
            var (repo, tag) := RepoAndTag(repoTag);
            if lower(repo) != repo then None else Some(Named(domain, Raw(name), repo, repoTag, tag))
  {
    NothingToTrim(name);
  }

  /** For every accepted name, parsing its complete name keeps domain, repository, tag and repository with tag. */
  lemma ReparseCompleteName(text: string, lower: Lower)
    requires ParseToNamed(text, lower).Some?
    ensures var n := ParseToNamed(text, lower).value;
            ParseToNamed(CompleteName(n), lower).Some? && SameImage(ParseToNamed(CompleteName(n), lower).value, n)
  {
    var name := TrimSpace(text);
    var (domain, repoTag) := Normalize(name);
    NormalizeOk(name);
    NormalizeComplete(domain, repoTag);
    NoSpaceConcat(domain, "/");
    NoSpaceConcat(domain + "/", repoTag);
    ParseIs(domain + "/" + repoTag, domain, repoTag, lower);
  }

  /** The complete name tells images apart. */
  lemma CompleteNameInjective(s: string, t: string, lower: Lower)
    requires ParseToNamed(s, lower).Some? && ParseToNamed(t, lower).Some?
    requires CompleteName(ParseToNamed(s, lower).value) == CompleteName(ParseToNamed(t, lower).value)
    ensures SameImage(ParseToNamed(s, lower).value, ParseToNamed(t, lower).value)
  {
    ReparseCompleteName(s, lower);
    ReparseCompleteName(t, lower);
  }

  // ---------------------------------------------------------------- the local tag name

  lemma SplitDomainOfTagged(name: string)
    ensures SplitDomain(name + ":latest") == (SplitDomain(name).0, SplitDomain(name).1 + ":latest")
  {
    var tagged, i := name + ":latest", IndexOf(name, '/');
    IndexNone(name, '/');
    if i < |name| {
      assert tagged[..i] == name[..i];
      IndexOfIs(tagged, '/', i);
      assert tagged[i + 1..] == name[i + 1..] + ":latest";
    } else {
      assert name[..i] == name;
      IndexNone(tagged, '/');
    }
  }

  /** Another `:latest` after the remainder: the same repository with tag exactly when there was no tag. */
  lemma TagTwice(domain: string, rest: string)
    ensures WithTag(WithRepo(domain, rest + ":latest")) == WithTag(WithRepo(domain, rest)) <==> ':' !in rest
  {
    WithTagHasColon(rest);
    assert "sealerio/" + (rest + ":latest") == "sealerio/" + rest + ":latest";
    assert (rest + ":latest")[|rest|] == ':';
    assert '/' in rest + ":latest" <==> '/' in rest;
    assert ':' in "sealerio/" + rest <==> ':' in rest;
    assert ("sealerio/" + rest + ":latest")[9 + |rest|] == ':';
  }

  /** Both texts are accepted and denote the same image. */
  ghost predicate Agree(other: string, name: string, lower: Lower)
  {
    ParseToNamed(other, lower).Some? && ParseToNamed(name, lower).Some?
    && SameImage(ParseToNamed(other, lower).value, ParseToNamed(name, lower).value)
  }

  lemma AgreeExactly(name: string, other: string, lower: Lower)
    requires NoSpace(name) && NoSpace(other) && other != "" && ParseToNamed(name, lower).Some?
             && Normalize(name).0 == Normalize(other).0
    ensures Agree(other, name, lower) <==> Normalize(other).1 == Normalize(name).1
  {
    NothingToTrim(name);
    NothingToTrim(other);
  }

  lemma TaggedNormalizes(name: string)
    ensures Normalize(name + ":latest").0 == Normalize(name).0
    ensures Normalize(name + ":latest").1 == Normalize(name).1 <==> ':' !in SplitDomain(name).1
  {
    SplitDomainOfTagged(name);
    TagTwice(SplitDomain(name).0, SplitDomain(name).1);
  }

  lemma RawOf(name: string, lower: Lower)
    requires NoSpace(name) && ParseToNamed(name, lower).Some?
    ensures ParseToNamed(name, lower).value.raw == Raw(name)
  {
    NothingToTrim(name);
  }

  lemma RawNormalizes(name: string)
    requires NoSpace(name) && name != ""
    ensures NoSpace(Raw(name)) && Raw(name) != "" && Normalize(Raw(name)).0 == Normalize(name).0
    ensures Normalize(Raw(name)).1 == Normalize(name).1 <==> EndsWithTag(name) || ':' !in SplitDomain(name).1
  {
    if !EndsWithTag(name) {
      NoSpaceConcat(name, ":latest");
      TaggedNormalizes(name);
    }
  }

  lemma RawAgrees(name: string, raw: string, same: bool, lower: Lower)
    requires NoSpace(name) && NoSpace(raw) && raw != "" && ParseToNamed(name, lower).Some?
             && Normalize(name).0 == Normalize(raw).0
    requires Normalize(raw).1 == Normalize(name).1 <==> same
    ensures Agree(raw, name, lower) <==> same
  {
    AgreeExactly(name, raw, lower);
  }

  /** The raw name, under which the image is tagged locally, parses to the same image exactly when it is the name
      itself or the part after the domain has no colon. */
  lemma RawNamesTheSameImage(name: string, lower: Lower)
    requires NoSpace(name) && ParseToNamed(name, lower).Some?
    ensures Agree(ParseToNamed(name, lower).value.raw, name, lower) <==>
            EndsWithTag(name) || ':' !in SplitDomain(name).1
  {
    RawOf(name, lower);
    RawNormalizes(name);
    RawAgrees(name, Raw(name), EndsWithTag(name) || ':' !in SplitDomain(name).1, lower);
  }

  lemma {:induction false} LastIndexAppend(a: string, b: string, c: char)
    requires c !in b
    ensures LastIndexOf(a + b, c) == LastIndexOf(a, c)
  {
    if b == "" {
      assert a + b == a;
    } else {
      assert (a + b)[..|a + b| - 1] == a + b[..|b| - 1];
      LastIndexAppend(a, b[..|b| - 1], c);
    }
  }

  lemma LastIndexHere(a: string, c: char, rest: string)
    requires c !in rest
    ensures LastIndexOf(a + [c] + rest, c) == |a|
  {
    LastIndexAppend(a + [c], rest, c);
  }

  lemma PlainAccepted(name: string, domain: string, rest: string, lower: Lower)
    requires NoSpace(name) && name != "" && SplitDomain(name) == (domain, rest) && domain != DEFAULT_DOMAIN
    requires ':' in rest && lower(RepoAndTag(rest).0) == RepoAndTag(rest).0
    ensures ParseToNamed(name, lower).Some?
  {
    NothingToTrim(name);
  }

  lemma RepoOf(repo: string, full: string)
    requires ':' !in repo
    ensures ':' in repo + ":" + full && RepoAndTag(repo + ":" + full).0 == repo
  {
    var rest := repo + ":" + full;
    assert rest[|repo|] == ':';
    IndexAfter(repo, ':', full);
    assert repo + [':'] + full == rest;
  }

  lemma DomainOf(domain: string, rest: string)
    requires NamesDomain(domain) && '/' !in domain
    ensures SplitDomain(domain + "/" + rest) == (domain, rest)
  {
    IndexAfter(domain, '/', rest);
    assert domain + ['/'] + rest == domain + "/" + rest;
  }

  lemma TagEndsEarly(front: string, tag: string, last: string)
    requires ':' !in tag && ':' !in last && '/' !in last
    ensures !EndsWithTag(front + ":" + (tag + "/" + last))
  {
    var full := tag + "/" + last;
    LastIndexHere(front, ':', full);
    assert front + [':'] + full == front + ":" + full;
    LastIndexHere(front + ":" + tag, '/', last);
    assert front + ":" + tag + ['/'] + last == front + ":" + full;
  }

  lemma NoSpaceParts(domain: string, repo: string, tag: string, last: string)
    requires NoSpace(domain) && NoSpace(repo) && NoSpace(tag) && NoSpace(last)
    ensures NoSpace(domain + "/" + (repo + ":" + (tag + "/" + last)))
  {
    NoSpaceConcat(tag, "/");
    NoSpaceConcat(tag + "/", last);
    NoSpaceConcat(repo, ":");
    NoSpaceConcat(repo + ":", tag + "/" + last);
    NoSpaceConcat(domain, "/");
    NoSpaceConcat(domain + "/", repo + ":" + (tag + "/" + last));
  }

  lemma RawDiffers(name: string, domain: string, rest: string, lower: Lower)
    requires NoSpace(name) && name != "" && SplitDomain(name) == (domain, rest) && domain != DEFAULT_DOMAIN
    requires ':' in rest && lower(RepoAndTag(rest).0) == RepoAndTag(rest).0 && !EndsWithTag(name)
    ensures ParseToNamed(name, lower).Some? && !Agree(ParseToNamed(name, lower).value.raw, name, lower)
  {
    PlainAccepted(name, domain, rest, lower);
    RawNamesTheSameImage(name, lower);
  }

  /** A tag with a slash in it: the raw name gets a second tag and denotes another image. */
  lemma RawNamesAnotherImage(domain: string, repo: string, tag: string, last: string, lower: Lower)
    returns (name: string)
    requires NamesDomain(domain) && '/' !in domain && domain != DEFAULT_DOMAIN && lower(repo) == repo
    requires ':' !in repo && ':' !in tag && '/' !in last && ':' !in last
    requires NoSpace(domain) && NoSpace(repo) && NoSpace(tag) && NoSpace(last)
    ensures name == domain + "/" + (repo + ":" + (tag + "/" + last))
    ensures NoSpace(name) && ParseToNamed(name, lower).Some? && !Agree(ParseToNamed(name, lower).value.raw, name, lower)
  {
    var full := tag + "/" + last;
    var rest := repo + ":" + full;
    name := domain + "/" + rest;
    NoSpaceParts(domain, repo, tag, last);
    RepoOf(repo, full);
    DomainOf(domain, rest);
    TagEndsEarly(domain + "/" + repo, tag, last);
    assert domain + "/" + repo + ":" + full == name;
    RawDiffers(name, domain, rest, lower);
  }

  lemma Spelled()
    ensures "x.io" + "/" + ("a" + ":" + ("b" + "/" + "c")) == "x.io/a:b/c"
    ensures NamesDomain("x.io") && '/' !in "x.io" && "x.io" != DEFAULT_DOMAIN
    ensures NoSpace("x.io") && NoSpace("a") && NoSpace("b") && NoSpace("c")
  {
    assert "x.io"[1] == '.';
    assert |"x.io"| != |DEFAULT_DOMAIN|;
  }

  /** For instance `x.io/a:b/c`. */
  lemma RawOfTaggedPath(lower: Lower) returns (name: string)
    requires lower("a") == "a"
    ensures name == "x.io/a:b/c"
    ensures ParseToNamed(name, lower).Some? && !Agree(ParseToNamed(name, lower).value.raw, name, lower)
  {
    Spelled();
    name := RawNamesAnotherImage("x.io", "a", "b", "c", lower);
  }

  // ---------------------------------------------------------------- what a name is read as, field by field

  lemma RepoAndTagOf(repo: string, tag: string, more: string)
    requires ':' !in repo && ':' !in tag && (more == "" || more[0] == ':')
    ensures ':' in repo + ":" + tag + more && RepoAndTag(repo + ":" + tag + more) == (repo, tag)
  {
    var rest := tag + more;
    var full := repo + ":" + tag + more;
    RepoOf(repo, rest);
    IndexAfter(repo, ':', rest);
    assert full == repo + ":" + rest && full == repo + [':'] + rest;
    FirstTag(tag, more);
    assert full[|repo| + 1..] == rest;
  }

  lemma FirstTag(tag: string, more: string)
    requires ':' !in tag && (more == "" || more[0] == ':')
    ensures SplitOn(tag + more, ':')[0] == tag
  {
    var rest := tag + more;
    if more == "" {
      assert rest == tag;
      IndexNone(rest, ':');
    } else {
      assert rest == tag + [':'] + more[1..];
      IndexAfter(tag, ':', more[1..]);
    }
  }

  /** The parts of a normalised name make up the result; only a repository that is not lower case is refused. */
  lemma ParsesTo(name: string, domain: string, repo: string, tag: string, lower: Lower)
    requires name != "" && NoSpace(name) && ':' !in repo && ':' !in tag
    requires Normalize(name) == (domain, repo + ":" + tag)
    ensures ParseToNamed(name, lower) ==
            if lower(repo) != repo then None else Some(Named(domain, Raw(name), repo, repo + ":" + tag, tag))
  {
    RepoAndTagOf(repo, tag, "");
    assert repo + ":" + tag + "" == repo + ":" + tag;
    ParseIs(name, domain, repo + ":" + tag, lower);
  }

  lemma RawOfTagged(front: string, tag: string)
    requires ':' !in tag && '/' !in tag
    ensures Raw(front + ":" + tag) == front + ":" + tag
  {
    LastIndexHere(front, ':', tag);
    assert front + [':'] + tag == front + ":" + tag;
    LastIndexAppend(front + ":", tag, '/');
  }

  lemma RawOfUntagged(front: string, last: string)
    requires ':' !in last && '/' !in last
    ensures Raw(front + "/" + last) == front + "/" + last + ":latest"
  {
    LastIndexHere(front, '/', last);
    assert front + ['/'] + last == front + "/" + last;
    LastIndexAppend(front + "/", last, ':');
  }

  /** `domain/repo:tag`. */
  lemma ParsesQualified(domain: string, repo: string, tag: string, lower: Lower)
    requires '.' in domain || ':' in domain || domain == "localhost"
    requires '/' !in domain && ':' !in repo && ':' !in tag && '/' !in tag
    requires NoSpace(domain) && NoSpace(repo) && NoSpace(tag) && (domain == "docker.io" ==> '/' in repo)
    ensures ParseToNamed(domain + "/" + repo + ":" + tag, lower) ==
            if lower(repo) != repo then None
            else Some(Named(domain, domain + "/" + repo + ":" + tag, repo, repo + ":" + tag, tag))
  {
    var name, rest := domain + "/" + repo + ":" + tag, repo + ":" + tag;
    assert name == domain + "/" + rest && rest[|repo|] == ':';
    DomainOf(domain, rest);
    assert '/' in repo ==> '/' in rest;
    NoSpaceConcat(domain, "/");
    NoSpaceConcat(domain + "/", repo);
    NoSpaceConcat(domain + "/" + repo, ":");
    NoSpaceConcat(domain + "/" + repo + ":", tag);
    RawOfTagged(domain + "/" + repo, tag);
    ParsesTo(name, domain, repo, tag, lower);
  }

  /** `domain/repo`: the tag is `latest`. */
  lemma ParsesUntagged(domain: string, repo: string, lower: Lower)
    requires '.' in domain || ':' in domain || domain == "localhost"
    requires '/' !in domain && ':' !in repo && '/' !in repo && domain != "docker.io"
    requires NoSpace(domain) && NoSpace(repo)
    ensures ParseToNamed(domain + "/" + repo, lower) ==
            if lower(repo) != repo then None
            else Some(Named(domain, domain + "/" + repo + ":latest", repo, repo + ":latest", "latest"))
  {
    var name := domain + "/" + repo;
    DomainOf(domain, repo);
    NoSpaceConcat(domain, "/");
    NoSpaceConcat(domain + "/", repo);
    RawOfUntagged(domain, repo);
    assert repo + ":" + "latest" == repo + ":latest";
    ParsesTo(name, domain, repo, "latest", lower);
  }

  /** A plain name with a tag belongs to `docker.io/sealerio`. */
  lemma ParsesPlainTagged(image: string, tag: string, lower: Lower)
    requires '/' !in image && ':' !in image && ':' !in tag && '/' !in tag && NoSpace(image) && NoSpace(tag)
    ensures var repo := "sealerio/" + image;
            ParseToNamed(image + ":" + tag, lower) ==
            if lower(repo) != repo then None
            else Some(Named("docker.io", image + ":" + tag, repo, repo + ":" + tag, tag))
  {
    var name, repo := image + ":" + tag, "sealerio/" + image;
    IndexNone(name, '/');
    assert name[|image|] == ':' && "sealerio/" + name == repo + ":" + tag;
    assert (repo + ":" + tag)[|repo|] == ':';
    NoSpaceConcat(image, ":");
    NoSpaceConcat(image + ":", tag);
    RawOfTagged(image, tag);
    ParsesTo(name, "docker.io", repo, tag, lower);
  }

  lemma RawOfPlain(image: string)
    requires ':' !in image
    ensures Raw(image) == image + ":latest"
  {
    LastIndexAppend("", image, ':');
    assert "" + image == image;
  }

  lemma PlainNormalizes(image: string)
    requires '/' !in image && ':' !in image
    ensures ':' !in "sealerio/" + image && Normalize(image) == ("docker.io", "sealerio/" + image + ":latest")
  {
    IndexNone(image, '/');
  }

  /** So does a plain name without one, whose tag is `latest`. */
  lemma ParsesPlain(image: string, lower: Lower)
    requires image != "" && '/' !in image && ':' !in image && NoSpace(image)
    ensures var repo := "sealerio/" + image;
            ParseToNamed(image, lower) ==
            if lower(repo) != repo then None
            else Some(Named("docker.io", image + ":latest", repo, repo + ":latest", "latest"))
  {
    var repo := "sealerio/" + image;
    PlainNormalizes(image);
    RawOfPlain(image);
    assert repo + ":" + "latest" == repo + ":latest";
    ParsesTo(image, "docker.io", repo, "latest", lower);
  }

  /** A path whose first part names no domain is a repository of `docker.io` as it stands. */
  lemma ParsesPath(first: string, rest: string, tag: string, lower: Lower)
    requires '/' !in first && '.' !in first && ':' !in first && first != "localhost"
    requires ':' !in rest && ':' !in tag && '/' !in tag
    requires NoSpace(first) && NoSpace(rest) && NoSpace(tag)
    ensures var repo := first + "/" + rest;
            ParseToNamed(repo + ":" + tag, lower) ==
            if lower(repo) != repo then None
            else Some(Named("docker.io", repo + ":" + tag, repo, repo + ":" + tag, tag))
  {
    var repo := first + "/" + rest;
    var name := repo + ":" + tag;
    assert name == first + ['/'] + (rest + ":" + tag) && name[|first|] == '/' && name[|repo|] == ':';
    IndexAfter(first, '/', rest + ":" + tag);
    assert ':' !in repo by {
      assert forall i :: 0 <= i < |repo| ==> repo[i] in first || repo[i] == '/' || repo[i] in rest;
    }
    NoSpaceConcat(first, "/");
    NoSpaceConcat(first + "/", rest);
    NoSpaceConcat(repo, ":");
    NoSpaceConcat(repo + ":", tag);
    RawOfTagged(repo, tag);
    ParsesTo(name, "docker.io", repo, tag, lower);
  }

  lemma {:induction false} TrimEnd(text: string, c: char)
    requires IsSpace(c)
    ensures TrimSpace(text + [c]) == TrimSpace(text)
  {
    if text == "" {
      assert "" + [c] == [c] && [c][1..] == "";
    } else {
      assert (text + [c])[..|text|] == text && (text + [c])[1..] == text[1..] + [c];
      if IsSpace(text[0]) {
        TrimEnd(text[1..], c);
      }
    }
  }

  /** White space around a name makes no difference, and inside it is refused; so is nothing at all. */
  lemma SpaceIsTrimmed(text: string, c: char, lower: Lower)
    requires IsSpace(c)
    ensures ParseToNamed([c] + text, lower) == ParseToNamed(text, lower) == ParseToNamed(text + [c], lower)
    ensures ParseToNamed("", lower) == None
    ensures !NoSpace(TrimSpace(text)) ==> ParseToNamed(text, lower) == None
  {
    assert ([c] + text)[1..] == text;
    TrimEnd(text, c);
  }
}

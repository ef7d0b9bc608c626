/** Splitting and joining text at a separator, as `strings.Split` and `strings.Join` do. */
module Text {

  function IndexOf(s: string, c: char): (i: nat)
    ensures i <= |s| && c !in s[..i] && (i < |s| ==> s[i] == c)
  {
    if s == "" || s[0] == c then 0
    else
      var i := 1 + IndexOf(s[1..], c);
      assert s[..i] == [s[0]] + s[1..][..i - 1];
      i
  }

  lemma {:induction false} IndexOfIs(s: string, c: char, i: nat)
    requires i < |s| && s[i] == c && c !in s[..i]
    ensures IndexOf(s, c) == i
  {
    if i > 0 {
      assert s[0] == s[..i][0];
      assert s[1..][..i - 1] == s[..i][1..];
      IndexOfIs(s[1..], c, i - 1);
    }
  }

  /** The first separator of `a + [c] + rest` is the one after `a`. */
  lemma IndexAfter(a: string, c: char, rest: string)
    requires c !in a
    ensures IndexOf(a + [c] + rest, c) == |a|
    ensures (a + [c] + rest)[..|a|] == a && (a + [c] + rest)[|a| + 1..] == rest
  {
    var s := a + [c] + rest;
    assert s[..|a|] == a;
    IndexOfIs(s, c, |a|);
  }

  lemma IndexNone(s: string, c: char)
    ensures c !in s <==> IndexOf(s, c) == |s|
  {
    assert s[..|s|] == s;
  }

  function SplitOn(s: string, c: char): (p: seq<string>)
    ensures |p| > 0
    decreases |s|
  {
    var i := IndexOf(s, c);
    if i == |s| then [s] else [s[..i]] + SplitOn(s[i + 1..], c)
  }

  function JoinOn(p: seq<string>, c: char): string
  {
    if p == [] then ""
    else if |p| == 1 then p[0]
    else p[0] + [c] + JoinOn(p[1..], c)
  }

  /** No field holds the separator. */
  ghost predicate Avoids(p: seq<string>, c: char)
  {
    forall k :: 0 <= k < |p| ==> c !in p[k]
  }

  lemma AvoidsCons(head: string, rest: seq<string>, c: char)
    requires c !in head && Avoids(rest, c)
    ensures Avoids([head] + rest, c)
  {
  }

  lemma JoinCons(head: string, rest: seq<string>, c: char)
    requires rest != []
    ensures JoinOn([head] + rest, c) == head + [c] + JoinOn(rest, c)
  {
    assert ([head] + rest)[1..] == rest;
  }

  lemma SplitCons(head: string, c: char, rest: string)
    requires c !in head
    ensures SplitOn(head + [c] + rest, c) == [head] + SplitOn(rest, c)
  {
    IndexAfter(head, c, rest);
  }

  /** Joining fields without the separator and splitting again gives the fields back. */
  lemma {:induction false} SplitJoin(p: seq<string>, c: char)
    requires p != [] && Avoids(p, c)
    ensures SplitOn(JoinOn(p, c), c) == p
  {
    var head, rest := p[0], p[1..];
    if rest == [] {
      IndexNone(head, c);
      assert p == [head];
    } else {
      assert p == [head] + rest;
      JoinCons(head, rest, c);
      SplitJoin(rest, c);
      SplitCons(head, c, JoinOn(rest, c));
    }
  }

  /** Splitting loses nothing, and no field holds the separator. */
  lemma {:induction false} JoinSplit(s: string, c: char)
    ensures JoinOn(SplitOn(s, c), c) == s && Avoids(SplitOn(s, c), c)
    decreases |s|
  {
    var i := IndexOf(s, c);
    if i == |s| {
      IndexNone(s, c);
    } else {
      var head, rest := s[..i], s[i + 1..];
      JoinSplit(rest, c);
      JoinCons(head, SplitOn(rest, c), c);
      AvoidsCons(head, SplitOn(rest, c), c);
      Cut(s, i);
    }
  }

  lemma Cut(s: string, i: nat)
    requires i < |s|
    ensures s == s[..i] + [s[i]] + s[i + 1..]
  {
  }

  lemma {:induction false} JoinAvoids(f: seq<string>, sep: char, c: char)
    requires c != sep && forall k :: 0 <= k < |f| ==> c !in f[k]
    ensures c !in JoinOn(f, sep)
  {
    if |f| > 1 {
      JoinAvoids(f[1..], sep, c);
    }
  }

  /** `net.JoinHostPort` */
  function JoinHostPort(host: string, port: string): string
  {
    if ':' in host then "[" + host + "]:" + port else host + ":" + port
  }
}

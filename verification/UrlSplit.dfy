/** The path and the query of a URL, as `urlsplit` of urllib.parse finds them, and splitting and joining of text. */
module UrlSplit {
  import opened Seqs

  /** Where the first of some characters stands, or the length. */
  function Find(s: string, stops: set<char>): (i: nat)
    ensures i <= |s| && (i < |s| ==> s[i] in stops) && forall k :: 0 <= k < i ==> s[k] !in stops
  {
    if s == "" || s[0] in stops then 0 else 1 + Find(s[1..], stops)
  }

  lemma FindUnique(s: string, stops: set<char>, i: nat)
    requires i <= |s| && (i < |s| ==> s[i] in stops) && forall k :: 0 <= k < i ==> s[k] !in stops
    ensures Find(s, stops) == i
  {
  }

  predicate Free(s: string, stops: set<char>) { forall i :: 0 <= i < |s| ==> s[i] !in stops }

  /** `s.split(sep)`. */
  function Split(sep: char, s: string): (parts: seq<string>)
    ensures parts != []
  {
    var i := Find(s, {sep});
    if i == |s| then [s] else [s[..i]] + Split(sep, s[i + 1..])
  }

  /** `sep.join(parts)`. */
  function Join(sep: char, parts: seq<string>): string {
    if parts == [] then "" else if |parts| == 1 then parts[0] else parts[0] + [sep] + Join(sep, parts[1..])
  }

  lemma SplitFree(sep: char, s: string)
    requires Free(s, {sep})
    ensures Split(sep, s) == [s]
  {
    FindUnique(s, {sep}, |s|);
  }

  lemma SplitNext(sep: char, p: string, s: string)
    requires Free(p, {sep})
    ensures Split(sep, p + [sep] + s) == [p] + Split(sep, s)
  {
    var all := p + [sep] + s;
    assert all[|p|] == sep && all[..|p|] == p && all[|p| + 1..] == s;
    FindUnique(all, {sep}, |p|);
  }

  lemma Assoc<T>(a: seq<T>, b: seq<T>, c: seq<T>)
    ensures (a + b) + c == a + (b + c)
  {
  }

  /** Splitting at a separator splits the parts on both sides. */
  lemma {:induction false} SplitConcat(sep: char, s: string, t: string)
    ensures Split(sep, s + [sep] + t) == Split(sep, s) + Split(sep, t)
    decreases |s|
  {
    var i := Find(s, {sep});
    if i == |s| {
      SplitNext(sep, s, t);
    } else {
      var p, rest := s[..i], s[i + 1..];
      assert s == p + [sep] + rest;
      SplitConcat(sep, rest, t);
      SplitNext(sep, p, rest + [sep] + t);
      Assoc(p + [sep], rest, [sep]);
      Assoc(p + [sep], rest + [sep], t);
      Assoc([p], Split(sep, rest), Split(sep, t));
    }
  }

  /** Splitting what was joined gives the parts back. */
  lemma {:induction false} SplitOfJoin(sep: char, parts: seq<string>)
    requires parts != [] && forall p :: p in parts ==> Free(p, {sep})
    ensures Split(sep, Join(sep, parts)) == parts
  {
    assert parts[0] in parts;
    if |parts| == 1 {
      SplitFree(sep, parts[0]);
    } else {
      assert forall q :: q in parts[1..] ==> q in parts;
      SplitOfJoin(sep, parts[1..]);
      SplitNext(sep, parts[0], Join(sep, parts[1..]));
    }
  }

  /** The parts hold only characters of the text, and no separator. */
  lemma {:induction false} SplitParts(sep: char, s: string)
    ensures forall p :: p in Split(sep, s) ==> Free(p, {sep}) && |p| <= |s| && forall c :: c in p ==> c in s
    decreases |s|
  {
    var i := Find(s, {sep});
    if i < |s| {
      SplitParts(sep, s[i + 1..]);
      assert forall c :: c in s[i + 1..] ==> c in s;
    }
  }

  // urlsplit

  predicate Kept(c: char) { c != '\t' && c != '\r' && c != '\n' }

  /** Tabs and line breaks are dropped wherever they stand. */
  function Cleaned(url: string): string { Filter(Kept, url) }

  predicate IsSchemeChar(c: char) {
    'a' <= c <= 'z' || 'A' <= c <= 'Z' || '0' <= c <= '9' || c == '+' || c == '-' || c == '.'
  }

  function AfterScheme(url: string): string {
    var i := Find(url, {':'});
    if 0 < i < |url| && ('a' <= url[0] <= 'z' || 'A' <= url[0] <= 'Z') && forall k :: 0 <= k < i ==> IsSchemeChar(url[k])
    then url[i + 1..] else url
  }

  function AfterHost(url: string): string {
    if |url| >= 2 && url[0] == url[1] == '/' then url[2 + Find(url[2..], {'/', '?', '#'})..] else url
  }

  /** Control characters and blanks in front are cut off. */
  function Unpadded(url: string): string {
    if url != "" && url[0] <= ' ' then Unpadded(url[1..]) else url
  }

  datatype Parts = Parts(path: string, query: string)

  /** What follows the host: a path, a query behind the first question mark, a fragment behind the first number
      sign. */
  function PathAndQuery(rest: string): Parts {
    var body := rest[..Find(rest, {'#'})];
    var i := Find(body, {'?'});
    Parts(body[..i], if i == |body| then "" else body[i + 1..])
  }

  function SplitUrl(url: string): Parts { PathAndQuery(AfterHost(AfterScheme(Cleaned(Unpadded(url))))) }

  const SCHEME := "https:"

  /** A host with its scheme, such as https://example.org, and nothing in it that ends a host. */
  ghost predicate IsHost(host: string) {
    && |host| >= 8 && host[..6] == SCHEME && host[6] == host[7] == '/'
    && Free(host[8..], {'/', '?', '#', '\t', '\r', '\n'})
  }

  lemma HostOfName(name: string)
    requires Free(name, {'/', '?', '#', '\t', '\r', '\n'})
    ensures IsHost(SCHEME + ("//" + name))
  {
    var host := SCHEME + ("//" + name);
    assert host[..6] == SCHEME && host[8..] == name;
  }

  lemma CleanedFree(s: string)
    requires forall i :: 0 <= i < |s| ==> Kept(s[i])
    ensures Cleaned(s) == s
  {
    FilterAll(Kept, s);
  }

  lemma HostIsClean(host: string)
    requires IsHost(host)
    ensures Cleaned(host) == host && host[0] == 'h'
  {
    forall i | 0 <= i < |host| ensures Kept(host[i]) {
      if i < 6 {
        assert host[i] == host[..6][i] == SCHEME[i];
      } else if i >= 8 {
        assert host[i] == host[8..][i - 8];
      }
    }
    CleanedFree(host);
    assert host[0] == host[..6][0];
  }

  lemma SchemeIsSkipped(rest: string)
    ensures AfterScheme(SCHEME + rest) == rest
  {
    var url := SCHEME + rest;
    assert forall k :: 0 <= k < 6 ==> url[k] == SCHEME[k];
    FindUnique(url, {':'}, 5);
    assert url[6..] == rest;
  }

  lemma NameIsSkipped(name: string, rest: string)
    requires Free(name, {'/', '?', '#'}) && rest != "" && rest[0] in {'/', '?', '#'}
    ensures AfterHost("//" + name + rest) == rest
  {
    var url := "//" + name + rest;
    assert url[2..] == name + rest;
    FindUnique(name + rest, {'/', '?', '#'}, |name|);
    assert url[2 + |name|..] == rest;
  }

  /** What stands behind a host is split without it. */
  lemma HostIsSkipped(host: string, rest: string)
    requires IsHost(host) && rest != "" && rest[0] == '/'
    ensures SplitUrl(host + rest) == PathAndQuery(Cleaned(rest))
  {
    HostIsClean(host);
    assert (host + rest)[0] == 'h';
    FilterConcat(Kept, host, rest);
    var name, clean := host[8..], Cleaned(rest);
    assert host == SCHEME + "//" + name;
    assert host + clean == SCHEME + ("//" + name + clean);
    SchemeIsSkipped("//" + name + clean);
    NameIsSkipped(name, clean);
  }

  /** A path without marks, followed by nothing or by the mark that ends it. */
  lemma PathEnds(path: string, tail: string)
    requires Free(path, {'?', '#'}) && (tail == "" || tail[0] in {'?', '#'})
    ensures PathAndQuery(path + tail).path == path
  {
    var rest := path + tail;
    var n := Find(rest, {'#'});
    assert n >= |path|;
    FindUnique(rest[..n], {'?'}, |path|);
  }

  lemma QueryFollows(path: string, query: string)
    requires Free(path, {'?', '#'}) && Free(query, {'#'})
    ensures PathAndQuery(path + "?" + query) == Parts(path, query)
    ensures PathAndQuery(path) == Parts(path, "")
  {
    var rest := path + "?" + query;
    FindUnique(rest, {'#'}, |rest|);
    FindUnique(rest, {'?'}, |path|);
    assert rest[..|rest|] == rest && rest[|path| + 1..] == query && rest[..|path|] == path;
    FindUnique(path, {'#'}, |path|);
    FindUnique(path, {'?'}, |path|);
    assert path[..|path|] == path;
  }

  /** The query behind a path on a host. */
  lemma QueryBehind(host: string, path: string, query: string)
    requires IsHost(host) && path != "" && path[0] == '/' && Free(path, {'?', '#', '\t', '\r', '\n'})
    requires Free(query, {'#', '\t', '\r', '\n'})
    ensures SplitUrl(host + (path + "?" + query)) == Parts(path, query)
  {
    HostIsSkipped(host, path + "?" + query);
    CleanedFree(path + "?" + query);
    QueryFollows(path, query);
  }

  const MARKS: set<char> := {'?', '#'}

  /** What is seen of a text that stands in a path: up to the first mark. */
  function Visible(s: string): string { Cleaned(s)[..Find(Cleaned(s), MARKS)] }

  lemma CleanedAround(start: string, s: string, tail: string)
    requires Cleaned(start) == start && Cleaned(tail) == tail
    ensures Cleaned(start + s + tail) == start + Cleaned(s) + tail
  {
    FilterConcat(Kept, start, s);
    FilterConcat(Kept, start + s, tail);
  }

  lemma Regroup(start: string, a: string, b: string, tail: string)
    ensures start + ((a + b) + "/") + tail == (start + a) + (b + ("/" + tail))
  {
    Assoc(a, b, "/");
    Assoc(start, a, b + "/");
    Assoc(start + a, b + "/", tail);
    Assoc(b, "/", tail);
  }

  lemma CutAtMark(s: string) returns (n: nat, seen: string, hidden: string)
    requires Find(s, MARKS) < |s|
    ensures n == Find(s, MARKS) && seen == s[..n] && s == seen + hidden && Free(seen, MARKS)
    ensures hidden != "" && hidden[0] in MARKS && hidden[0] == s[n]
  {
    n := Find(s, MARKS);
    seen, hidden := s[..n], s[n..];
  }

  lemma FragmentHides(path: string, tail: string)
    requires Free(path, MARKS) && tail != "" && tail[0] == '#'
    ensures PathAndQuery(path + tail) == Parts(path, "")
  {
    var rest := path + tail;
    assert rest[|path|] == '#' && rest[..|path|] == path;
    FindUnique(rest, {'#'}, |path|);
    FindUnique(path, {'?'}, |path|);
    assert path[..|path|] == path;
  }

  /** A mark in a path segment hides the rest of the path. */
  lemma MarkHides(start: string, s: string, tail: string)
    requires Free(start, MARKS) && Find(s, MARKS) < |s|
    ensures PathAndQuery(start + (s + "/") + tail).path == start + s[..Find(s, MARKS)]
  {
    var n, seen, hidden := CutAtMark(s);
    Regroup(start, seen, hidden, tail);
    PathEnds(start + seen, hidden + ("/" + tail));
  }

  /** A number sign hides the query as well. */
  lemma NumberSignHides(start: string, s: string, tail: string)
    requires Free(start, MARKS) && Find(s, MARKS) < |s| && s[Find(s, MARKS)] == '#'
    ensures PathAndQuery(start + (s + "/") + tail).query == ""
  {
    var n, seen, hidden := CutAtMark(s);
    Regroup(start, seen, hidden, tail);
    FragmentHides(start + seen, hidden + ("/" + tail));
  }

  lemma NoMarkHidesNothing(s: string)
    requires Free(s, MARKS)
    ensures Visible(s) == Cleaned(s) && Free(Cleaned(s), MARKS)
  {
    FilterMembers(Kept, s);
    forall i | 0 <= i < |Cleaned(s)| ensures Cleaned(s)[i] !in MARKS { assert Cleaned(s)[i] in Cleaned(s); }
    FindUnique(Cleaned(s), MARKS, |Cleaned(s)|);
    assert Cleaned(s)[..|Cleaned(s)|] == Cleaned(s);
  }

  lemma FreeConcat(s: string, t: string, stops: set<char>)
    requires Free(s, stops) && Free(t, stops)
    ensures Free(s + t, stops)
  {
  }

  lemma FindConcat(s: string, t: string, stops: set<char>)
    ensures Find(s + t, stops) == if Find(s, stops) < |s| then Find(s, stops) else |s| + Find(t, stops)
  {
    FindUnique(s + t, stops, if Find(s, stops) < |s| then Find(s, stops) else |s| + Find(t, stops));
  }

  /** The query is found behind any path without marks. */
  lemma PathIsPassed(start: string, rest: string)
    requires Free(start, MARKS)
    ensures PathAndQuery(start + rest).query == PathAndQuery(rest).query
  {
    var n := Find(rest, {'#'});
    BodyIsPassed(start, rest, n);
    QueryIsPassed(start, rest[..n]);
  }

  lemma BodyIsPassed(start: string, rest: string, n: nat)
    requires Free(start, MARKS) && n == Find(rest, {'#'})
    ensures (start + rest)[..Find(start + rest, {'#'})] == start + rest[..n]
  {
    FindUnique(start, {'#'}, |start|);
    FindConcat(start, rest, {'#'});
  }

  lemma QueryIsPassed(start: string, body: string)
    requires Free(start, MARKS)
    ensures var i, j := Find(start + body, {'?'}), Find(body, {'?'});
            ((i == |start + body| <==> j == |body|) && (j < |body| ==> (start + body)[i + 1..] == body[j + 1..]))
  {
    FindUnique(start, {'?'}, |start|);
    FindConcat(start, body, {'?'});
  }

  lemma FragmentIsCut(u: string, fragment: string)
    requires Free(u, {'#'}) && fragment != "" && fragment[0] == '#'
    ensures PathAndQuery(u + fragment) == PathAndQuery(u)
  {
    FindConcat(u, fragment, {'#'});
    FindUnique(u, {'#'}, |u|);
    FindUnique(fragment, {'#'}, 0);
    assert (u + fragment)[..|u|] == u == u[..|u|];
  }

  /** A path with the question mark behind it. */
  ghost predicate OpensQuery(path: string) {
    path != "" && path[|path| - 1] == '?' && Free(path[..|path| - 1], MARKS)
  }

  lemma OpenPath(path: string, query: string)
    requires OpensQuery(path) && Free(query, {'#'})
    ensures Free(path + query, {'#'}) && PathAndQuery(path + query).query == query
  {
    var start := path[..|path| - 1];
    assert path == start + "?";
    assert Free(start, {'#'});
    QueryFollows(start, query);
  }

  /** Behind a question mark the query lasts up to a number sign. */
  lemma OpenPathCut(path: string, h: string, fragment: string)
    requires OpensQuery(path) && Free(h, {'#'}) && fragment != "" && fragment[0] == '#'
    ensures PathAndQuery(path + (h + fragment)).query == h
  {
    OpenPath(path, h);
    FragmentIsCut(path + h, fragment);
    Assoc(path, h, fragment);
  }

  lemma QuestionMarkOpens(path: string, behind: string, tail: string)
    requires OpensQuery(path) && Free(tail, {'#'})
    ensures PathAndQuery(path + (behind + tail)).query
         == if Free(behind, {'#'}) then behind + tail else behind[..Find(behind, {'#'})]
  {
    if Free(behind, {'#'}) {
      FreeConcat(behind, tail, {'#'});
      OpenPath(path, behind + tail);
    } else {
      var h, fragment := CutAtSign(behind);
      OpenPathCut(path, h, fragment + tail);
      Assoc(h, fragment, tail);
    }
  }

  lemma CutAtSign(s: string) returns (h: string, fragment: string)
    requires !Free(s, {'#'})
    ensures s == h + fragment && h == s[..Find(s, {'#'})] && Free(h, {'#'}) && fragment != "" && fragment[0] == '#'
  {
    h, fragment := s[..Find(s, {'#'})], s[Find(s, {'#'})..];
  }

  lemma NumberSignOpens(s: string, tail: string)
    requires Find(s, MARKS) < |s| && s[Find(s, MARKS)] == '#'
    ensures PathAndQuery(s + tail).query == ""
  {
    var n, seen, hidden := CutAtMark(s);
    FragmentHides(seen, hidden + tail);
    Assoc(seen, hidden, tail);
  }

  /** What a text with a mark shows as a query, and whether more text would follow it. */
  function Shown(s: string): (h: string)
    ensures forall c :: c in h ==> c in s
  {
    var n := Find(s, MARKS);
    if n == |s| || s[n] == '#' then "" else
      var behind := s[n + 1..];
      assert forall c :: c in behind ==> c in s;
      behind[..Find(behind, {'#'})]
  }

  lemma MarkOpensQuery(s: string, tail: string)
    requires !Free(s, MARKS) && Free(tail, {'#'})
    ensures PathAndQuery(s + tail).query == Shown(s) + if Free(s, {'#'}) then tail else ""
  {
    var n := Find(s, MARKS);
    if s[n] == '#' {
      NumberSignOpens(s, tail);
    } else {
      var path, behind := s[..n + 1], s[n + 1..];
      assert path[..n] == s[..n];
      assert s == path + behind;
      Assoc(path, behind, tail);
      QuestionMarkOpens(path, behind, tail);
      SameSigns(s, n, behind);
      if Free(behind, {'#'}) { assert behind[..|behind|] == behind; }
    }
  }

  lemma SameSigns(s: string, n: nat, behind: string)
    requires n < |s| && behind == s[n + 1..] && s[n] == '?' && Free(s[..n], MARKS)
    ensures Free(s, {'#'}) <==> Free(behind, {'#'})
  {
    if Free(behind, {'#'}) {
      forall i | 0 <= i < |s| ensures s[i] !in {'#'} {
        if i < n { assert s[i] == s[..n][i]; } else if i > n { assert s[i] == behind[i - n - 1]; }
      }
    }
  }
}

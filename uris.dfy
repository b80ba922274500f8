/**
 * URI references as the redirect middleware handles them: the split of a
 * string into scheme, authority, path and query (the regular expression of
 * appendix B of RFC 3986, without the fragment), recomposition (section 5.3
 * of RFC 3986), and resolution of a reference against the URI of the
 * current request (sections 5.2.2 and 5.2.3 of RFC 3986, without the
 * removal of dot segments).
 */
module Uris {
  import opened Wrappers

  /** A URI reference. A URI carried by a request has a scheme; a `Location`
      value may lack any component but the (possibly empty) path. */
  datatype Uri = Uri(scheme: Option<string>, authority: Option<string>, path: string, query: Option<string>)

  const SchemeStops: set<char> := {':', '/', '?'}
  const AuthorityStops: set<char> := {'/', '?'}
  const QueryStops: set<char> := {'?'}

  /** No character of s belongs to stops. */
  predicate NoneIn(s: string, stops: set<char>)
  {
    forall k :: 0 <= k < |s| ==> s[k] !in stops
  }

  /** The index of the first character of s that belongs to stops, or |s|. */
  function FirstOf(s: string, stops: set<char>): (i: nat)
    ensures i <= |s|
    ensures i < |s| ==> s[i] in stops
  {
    if s == [] then 0
    else if s[0] in stops then 0
    else 1 + FirstOf(s[1..], stops)
  }

  /** No character before the one FirstOf finds belongs to stops. */
  lemma {:induction false} FirstOfClear(s: string, stops: set<char>)
    ensures NoneIn(s[..FirstOf(s, stops)], stops)
    decreases |s|
  {
    if s != [] && s[0] !in stops {
      FirstOfClear(s[1..], stops);
      var j := FirstOf(s[1..], stops);
      assert s[..1 + j] == [s[0]] + s[1..][..j];
    }
  }

  /** FirstOf is the only index that is a stop (or the end) with no stop before it. */
  lemma {:induction false} FirstOfUnique(s: string, stops: set<char>, i: nat)
    requires i <= |s| && NoneIn(s[..i], stops) && (i < |s| ==> s[i] in stops)
    ensures FirstOf(s, stops) == i
    decreases |s|
  {
    if s != [] {
      if i > 0 {
        assert s[..i][0] == s[0];
        assert s[1..][..i - 1] == s[..i][1..];
        FirstOfUnique(s[1..], stops, i - 1);
      }
    }
  }

  /** Searching past a stretch free of stops. */
  lemma FirstOfAfter(a: string, b: string, stops: set<char>)
    requires NoneIn(a, stops)
    ensures FirstOf(a + b, stops) == |a| + FirstOf(b, stops)
  {
    var j := FirstOf(b, stops);
    var s := a + b;
    FirstOfClear(b, stops);
    assert s[..|a| + j] == a + b[..j];
    FirstOfUnique(s, stops, |a| + j);
  }

  /** Searching a prefix finds the same stop, if the prefix reaches it. */
  lemma FirstOfPrefix(s: string, n: nat, stops: set<char>)
    requires n <= |s|
    ensures FirstOf(s[..n], stops) == if FirstOf(s, stops) < n then FirstOf(s, stops) else n
  {
    var f := FirstOf(s, stops);
    var i := if f < n then f else n;
    FirstOfClear(s, stops);
    assert s[..n][..i] == s[..i];
    assert s[..i] == s[..f][..i];
    FirstOfUnique(s[..n], stops, i);
  }

  /** Splits a leading `scheme:` off s; the scheme is non-empty and free of `:`, `/` and `?`. */
  function SplitScheme(s: string): (Option<string>, string)
  {
    var c := FirstOf(s, SchemeStops);
    if 0 < c < |s| && s[c] == ':' then (Some(s[..c]), s[c + 1..]) else (None, s)
  }

  /** Splits a leading `//authority` off s; the authority runs up to the first `/` or `?`. */
  function SplitAuthority(s: string): (Option<string>, string)
  {
    if |s| >= 2 && s[..2] == "//" then
      var a := FirstOf(s[2..], AuthorityStops);
      (Some(s[2..][..a]), s[2 + a..])
    else (None, s)
  }

  /** Splits s at its first `?` into the path and the query. */
  function SplitQuery(s: string): (string, Option<string>)
  {
    var q := FirstOf(s, QueryStops);
    if q < |s| then (s[..q], Some(s[q + 1..])) else (s, None)
  }

  /** Each split loses nothing: the parts, written back, give the string split. */
  lemma SplitSchemeJoins(s: string)
    ensures var r := SplitScheme(s); s == SchemePrefix(r.0) + r.1
  {
    var c := FirstOf(s, SchemeStops);
    if 0 < c < |s| && s[c] == ':' {
      assert s == s[..c] + ":" + s[c + 1..];
    }
  }

  lemma SplitAuthorityJoins(s: string)
    ensures var r := SplitAuthority(s); s == AuthorityPrefix(r.0) + r.1
  {
    if |s| >= 2 && s[..2] == "//" {
      var a := FirstOf(s[2..], AuthorityStops);
      assert s == "//" + s[2..][..a] + s[2 + a..];
    }
  }

  lemma SplitQueryJoins(s: string)
    ensures var r := SplitQuery(s); s == r.0 + QuerySuffix(r.1)
  {
    var q := FirstOf(s, QueryStops);
    if q < |s| {
      assert s == s[..q] + "?" + s[q + 1..];
    }
  }

  /** Reads a URI reference. Every string is one, so reading never fails. */
  function Parse(s: string): Uri
  {
    var sch := SplitScheme(s);
    var auth := SplitAuthority(sch.1);
    var pq := SplitQuery(auth.1);
    Uri(sch.0, auth.0, pq.0, pq.1)
  }

  /** The string form of a URI reference (section 5.3 of RFC 3986). An empty
      path followed by a query gives `http://example.com?a=b`. */
  function ToString(u: Uri): string
  {
    SchemePrefix(u.scheme) + (AuthorityPrefix(u.authority) + (u.path + QuerySuffix(u.query)))
  }

  function SchemePrefix(scheme: Option<string>): string
  {
    if scheme.Some? then scheme.value + ":" else ""
  }

  function AuthorityPrefix(authority: Option<string>): string
  {
    if authority.Some? then "//" + authority.value else ""
  }

  function QuerySuffix(query: Option<string>): string
  {
    if query.Some? then "?" + query.value else ""
  }

  /** The URI references that ToString writes so that Parse reads them back. */
  predicate WellFormed(u: Uri)
  {
    && (u.scheme.Some? ==> |u.scheme.value| > 0 && NoneIn(u.scheme.value, SchemeStops))
    && (u.authority.Some? ==> NoneIn(u.authority.value, AuthorityStops))
    && (u.authority.Some? ==> u.path == "" || u.path[0] == '/')
    && (u.authority.None? ==> !(|u.path| >= 2 && u.path[..2] == "//"))
    && NoneIn(u.path, QueryStops)
    && (u.scheme.None? && u.authority.None? ==> !ColonInFirstSegment(u.path))
  }

  /** The first `:`, `/` or `?` of the path is a `:` after at least one
      character, so that the path would read as a scheme. */
  predicate ColonInFirstSegment(path: string)
  {
    var c := FirstOf(path, SchemeStops);
    0 < c < |path| && path[c] == ':'
  }

  /** Writing what was read gives back the string read. */
  lemma {:induction false} ToStringParse(s: string)
    ensures ToString(Parse(s)) == s
  {
    var sch := SplitScheme(s);
    var auth := SplitAuthority(sch.1);
    SplitSchemeJoins(s);
    SplitAuthorityJoins(sch.1);
    SplitQueryJoins(auth.1);
  }

  /** What is read is well formed. */
  lemma {:induction false} ParseWellFormed(s: string)
    ensures WellFormed(Parse(s))
  {
    var (scheme, afterScheme) := SplitScheme(s);
    var (authority, afterAuthority) := SplitAuthority(afterScheme);
    var (path, query) := SplitQuery(afterAuthority);
    var q := FirstOf(afterAuthority, QueryStops);
    FirstOfClear(afterAuthority, QueryStops);
    FirstOfClear(s, SchemeStops);
    assert path == afterAuthority[..q];
    if authority.Some? {
      var a := FirstOf(afterScheme[2..], AuthorityStops);
      FirstOfClear(afterScheme[2..], AuthorityStops);
      assert afterAuthority == afterScheme[2 + a..];
      if path != "" {
        assert afterAuthority[0] == afterScheme[2..][a];
        assert afterAuthority[0] == '/';
      }
    } else {
      assert afterAuthority == afterScheme;
      if |path| >= 2 {
        assert path[..2] == afterScheme[..2];
      }
      if scheme.None? {
        FirstOfPrefix(s, q, SchemeStops);
      }
    }
  }

  /** Reading what was written gives back the reference written. */
  lemma {:induction false} ParseToString(u: Uri)
    requires WellFormed(u)
    ensures Parse(ToString(u)) == u
  {
    var afterAuthority := u.path + QuerySuffix(u.query);
    var afterScheme := AuthorityPrefix(u.authority) + afterAuthority;
    SplitQueryOf(u.path, u.query);
    SplitAuthorityOf(u.authority, afterAuthority);
    if u.scheme.None? {
      NoSchemeRead(u);
    }
    SplitSchemeOf(u.scheme, afterScheme);
  }

  lemma SplitQueryOf(path: string, query: Option<string>)
    requires NoneIn(path, QueryStops)
    ensures SplitQuery(path + QuerySuffix(query)) == (path, query)
  {
    var s := path + QuerySuffix(query);
    FirstOfAfter(path, QuerySuffix(query), QueryStops);
    if query.Some? {
      assert QuerySuffix(query)[0] == '?';
      assert s[..|path|] == path;
      assert s[|path| + 1..] == query.value;
    } else {
      assert s == path;
    }
  }

  lemma SplitAuthorityOf(authority: Option<string>, rest: string)
    requires authority.Some? ==> NoneIn(authority.value, AuthorityStops) && (rest == "" || rest[0] in AuthorityStops)
    requires authority.None? ==> !(|rest| >= 2 && rest[..2] == "//")
    ensures SplitAuthority(AuthorityPrefix(authority) + rest) == (authority, rest)
  {
    if authority.Some? {
      var a := authority.value;
      var s := AuthorityPrefix(authority) + rest;
      assert s[..2] == "//";
      assert s[2..] == a + rest;
      FirstOfAfter(a, rest, AuthorityStops);
      assert FirstOf(s[2..], AuthorityStops) == |a|;
      assert s[2..][..|a|] == a;
      assert s[2 + |a|..] == rest;
    } else {
      assert AuthorityPrefix(authority) + rest == rest;
    }
  }

  lemma SplitSchemeOf(scheme: Option<string>, rest: string)
    requires scheme.Some? ==> |scheme.value| > 0 && NoneIn(scheme.value, SchemeStops)
    requires scheme.None? ==> SplitScheme(rest).0.None?
    ensures SplitScheme(SchemePrefix(scheme) + rest) == (scheme, rest)
  {
    if scheme.Some? {
      var v := scheme.value;
      var s := SchemePrefix(scheme) + rest;
      assert s == v + (":" + rest);
      FirstOfAfter(v, ":" + rest, SchemeStops);
      assert s[|v|] == ':';
      assert s[..|v|] == v;
      assert s[|v| + 1..] == rest;
    } else {
      assert SchemePrefix(scheme) + rest == rest;
    }
  }

  /** A well-formed reference without a scheme does not read as one with a scheme. */
  lemma NoSchemeRead(u: Uri)
    requires WellFormed(u) && u.scheme.None?
    ensures SplitScheme(AuthorityPrefix(u.authority) + (u.path + QuerySuffix(u.query))).0.None?
  {
    var s := AuthorityPrefix(u.authority) + (u.path + QuerySuffix(u.query));
    if u.authority.Some? {
      assert s[0] == '/';
      assert FirstOf(s, SchemeStops) == 0;
    } else {
      assert s == u.path + QuerySuffix(u.query);
      assert !ColonInFirstSegment(u.path);
      NoSchemeInPath(u.path, QuerySuffix(u.query));
    }
  }

  lemma NoSchemeInPath(path: string, query: string)
    requires !ColonInFirstSegment(path)
    requires query == "" || query[0] == '?'
    ensures SplitScheme(path + query).0.None?
  {
    var s := path + query;
    var p := FirstOf(path, SchemeStops);
    if p < |path| {
      assert s[..|path|] == path;
      FirstOfPrefix(s, |path|, SchemeStops);
      assert FirstOf(s, SchemeStops) == p;
      assert s[p] == path[p];
    } else {
      FirstOfClear(path, SchemeStops);
      assert path[..p] == path;
      FirstOfAfter(path, query, SchemeStops);
      assert FirstOf(s, SchemeStops) == |path|;
    }
  }

  /** The length of the longest prefix of path that ends in `/` (0 when it has none). */
  function DirectoryEnd(path: string): (n: nat)
    ensures n <= |path|
    ensures n > 0 ==> path[n - 1] == '/'
    ensures forall k :: n <= k < |path| ==> path[k] != '/'
  {
    if path == [] then 0
    else if path[|path| - 1] == '/' then |path|
    else DirectoryEnd(path[..|path| - 1])
  }

  /** Merging a relative path onto the base URI's path (section 5.2.3 of RFC 3986). */
  function Merge(base: Uri, path: string): string
  {
    if base.authority.Some? && base.path == "" then "/" + path
    else base.path[..DirectoryEnd(base.path)] + path
  }

  /** The merged path is the reference path after "/" when the base has an
      authority and an empty path, and otherwise after the base path up to
      and including its last `/` (nothing when it has none). */
  lemma MergeAfterLastSlash(base: Uri, path: string)
    ensures base.authority.Some? && base.path == "" ==> Merge(base, path) == "/" + path
    ensures !(base.authority.Some? && base.path == "") ==>
      exists n :: 0 <= n <= |base.path| && Merge(base, path) == base.path[..n] + path
                  && (n > 0 ==> base.path[n - 1] == '/')
                  && NoneIn(base.path[n..], {'/'})
  {
    if !(base.authority.Some? && base.path == "") {
      var n := DirectoryEnd(base.path);
      assert NoneIn(base.path[n..], {'/'}) by {
        forall k | 0 <= k < |base.path[n..]| ensures base.path[n..][k] != '/' {
          assert base.path[n..][k] == base.path[n + k];
        }
      }
      assert Merge(base, path) == base.path[..n] + path;
    }
  }

  /** The target of a reference seen from base (section 5.2.2 of RFC 3986,
      without the removal of dot segments). */
  function Resolve(base: Uri, ref: Uri): (t: Uri)
  {
    if ref.scheme.Some? then ref
    else if ref.authority.Some? then Uri(base.scheme, ref.authority, ref.path, ref.query)
    else if ref.path == "" then
      Uri(base.scheme, base.authority, base.path, if ref.query.Some? then ref.query else base.query)
    else if ref.path[0] == '/' then Uri(base.scheme, base.authority, ref.path, ref.query)
    else Uri(base.scheme, base.authority, Merge(base, ref.path), ref.query)
  }

  /** A `Location` with a scheme is the redirect target exactly as written. */
  lemma ResolveAbsoluteLocation(base: Uri, location: string)
    requires Parse(location).scheme.Some?
    ensures Resolve(base, Parse(location)) == Parse(location)
    ensures ToString(Resolve(base, Parse(location))) == location
  {
    ToStringParse(location);
  }

  /** A `Location` that is an absolute path (`/foo`) keeps the scheme and the
      authority of the base, takes its path and query from the location, and
      drops the query of the base. */
  lemma {:induction false} ResolveAbsolutePath(base: Uri, location: string)
    requires |location| > 0 && location[0] == '/'
    requires !(|location| >= 2 && location[1] == '/')
    ensures var t := Resolve(base, Parse(location));
      && t.scheme == base.scheme
      && t.authority == base.authority
      && t.path + QuerySuffix(t.query) == location
      && ('?' !in location ==> t.query.None? && t.path == location)
      && ToString(t) == SchemePrefix(base.scheme) + (AuthorityPrefix(base.authority) + location)
  {
    var r := Parse(location);
    assert FirstOf(location, SchemeStops) == 0;
    assert r.scheme.None?;
    assert r.authority.None? by {
      assert !(|location| >= 2 && location[..2] == "//");
    }
    ToStringParse(location);
    assert r.path + QuerySuffix(r.query) == location;
    var q := FirstOf(location, QueryStops);
    assert q > 0;
    assert r.path == location[..q];
    assert r.path[0] == '/';
    if '?' !in location {
      assert q == |location|;
    }
  }

  /** Resolving a well-formed reference against a well-formed base with a
      scheme and an authority (the URI of a request) gives a well-formed
      URI with a scheme. */
  lemma {:induction false} ResolveWellFormed(base: Uri, ref: Uri)
    requires WellFormed(base) && base.scheme.Some? && base.authority.Some?
    requires WellFormed(ref)
    ensures WellFormed(Resolve(base, ref)) && Resolve(base, ref).scheme.Some?
  {
    if ref.scheme.None? && ref.authority.None? && ref.path != "" && ref.path[0] != '/' {
      MergeUnderAuthority(base, ref.path);
    }
  }

  /** Under a base with an authority, a merged path is absolute and, when
      neither part has a `?`, has none. */
  lemma MergeUnderAuthority(base: Uri, path: string)
    requires base.authority.Some? && (base.path == "" || base.path[0] == '/')
    requires NoneIn(base.path, QueryStops) && NoneIn(path, QueryStops)
    ensures var m := Merge(base, path); |m| > 0 && m[0] == '/' && NoneIn(m, QueryStops)
  {
    if base.path != "" {
      var n := DirectoryEnd(base.path);
      var m := Merge(base, path);
      assert base.path[0] == '/';
      assert n > 0;
      assert m == base.path[..n] + path;
      forall k | 0 <= k < |m| ensures m[k] !in QueryStops {
        if k < n {
          assert m[k] == base.path[k];
        } else {
          assert m[k] == path[k - n];
        }
      }
    }
  }
}

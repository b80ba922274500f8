/**
 * The redirect scenarios of the middleware's test suite, each run on a
 * fresh MockHandler: the requests are built from URI strings, the options
 * name only what the scenario sets (the rest keep their defaults), and the
 * ensures clauses state what the scenario checks.
 */
module Scenarios {
  import opened Wrappers
  import opened Uris
  import opened Redirects
  import opened RedirectChain

  /** `allow_redirects` giving only `max`. */
  function MaxOnly(max: nat): (o: Options)
    ensures o.max == max && !o.referer && o.protocols == ["http", "https"]
  {
    DefaultOptions.(max := max)
  }

  /** `allow_redirects` giving `max` and turning `referer` on. */
  function MaxWithReferer(max: nat): (o: Options)
    ensures o.max == max && o.referer && o.protocols == ["http", "https"]
  {
    DefaultOptions.(max := max, referer := true)
  }

  /** A GET without headers, as `new Request('GET', uri)` builds it. */
  function Get(uri: string): Request
  {
    Request("GET", Parse(uri), map[])
  }

  // The URIs of the scenarios, read from their strings and written back.

  lemma ReadExampleWithQuery()
    ensures Parse("http://example.com?a=b") == Uri(Some("http"), Some("example.com"), "", Some("a=b"))
    ensures ToString(Uri(Some("http"), Some("example.com"), "", Some("a=b"))) == "http://example.com?a=b"
  {
    var u := Uri(Some("http"), Some("example.com"), "", Some("a=b"));
    assert ToString(u) == "http://example.com?a=b";
    ParseToString(u);
  }

  lemma ReadSecureExampleWithQuery()
    ensures Parse("https://example.com?a=b") == Uri(Some("https"), Some("example.com"), "", Some("a=b"))
    ensures ToString(Uri(Some("https"), Some("example.com"), "", Some("a=b"))) == "https://example.com?a=b"
  {
    var u := Uri(Some("https"), Some("example.com"), "", Some("a=b"));
    assert ToString(u) == "https://example.com?a=b";
    ParseToString(u);
  }

  lemma ReadExample()
    ensures Parse("http://example.com") == Uri(Some("http"), Some("example.com"), "", None)
    ensures ToString(Uri(Some("http"), Some("example.com"), "", None)) == "http://example.com"
  {
    var u := Uri(Some("http"), Some("example.com"), "", None);
    assert ToString(u) == "http://example.com";
    ParseToString(u);
  }

  lemma ReadExampleFoo()
    ensures Parse("http://example.com/foo") == Uri(Some("http"), Some("example.com"), "/foo", None)
    ensures ToString(Uri(Some("http"), Some("example.com"), "/foo", None)) == "http://example.com/foo"
  {
    var u := Uri(Some("http"), Some("example.com"), "/foo", None);
    assert ToString(u) == "http://example.com/foo";
    ParseToString(u);
  }

  lemma ReadFoo()
    ensures Parse("/foo") == Uri(None, None, "/foo", None)
    ensures ToString(Uri(None, None, "/foo", None)) == "/foo"
  {
    var u := Uri(None, None, "/foo", None);
    assert ToString(u) == "/foo";
    assert FirstOf(u.path, SchemeStops) == 0;
    assert u.path[..2] != "//" by {
      assert u.path[1] == 'f';
    }
    ParseToString(u);
  }

  lemma ReadTest()
    ensures Parse("http://test.com") == Uri(Some("http"), Some("test.com"), "", None)
    ensures ToString(Uri(Some("http"), Some("test.com"), "", None)) == "http://test.com"
  {
    var u := Uri(Some("http"), Some("test.com"), "", None);
    assert ToString(u) == "http://test.com";
    ParseToString(u);
  }

  lemma ReadFtpTest()
    ensures Parse("ftp://test.com") == Uri(Some("ftp"), Some("test.com"), "", None)
    ensures ToString(Uri(Some("ftp"), Some("test.com"), "", None)) == "ftp://test.com"
  {
    var u := Uri(Some("ftp"), Some("test.com"), "", None);
    assert ToString(u) == "ftp://test.com";
    ParseToString(u);
  }

  /** One redirect to an allowed target, then a response that is not a
      redirect: two requests go out and the second response comes back. */
  lemma OneRedirect(request: Request, redirect: Response, opts: Options, final: Response)
    requires IsRedirect(redirect) && opts.max >= 1 && !IsRedirect(final)
    requires AllowedScheme(Target(request, redirect), opts.protocols)
    ensures var target := Target(request, redirect);
      var next := Request(request.verb, target, NextHeaders(request, target, opts));
      Handle(request, Some(opts), [redirect, final]) == ChainResult(Returned(final), [request, next])
  {
    var target := Target(request, redirect);
    var next := Request(request.verb, target, NextHeaders(request, target, opts));
    assert Evaluate(request, redirect, 0, opts) == Follow(next);
    ChainFollowStep(request, redirect, 0, opts, [final]);
    ChainTerminalStep(next, final, 1, opts, []);
  }

  /** A redirect to a scheme the options do not allow: only the first
      request goes out, and the chain fails naming the target. */
  lemma UnsupportedTarget(request: Request, redirect: Response, opts: Options)
    requires IsRedirect(redirect) && opts.max >= 1
    requires !AllowedScheme(Target(request, redirect), opts.protocols)
    ensures var reason := InvalidProtocol(Target(request, redirect), opts.protocols);
      Handle(request, Some(opts), [redirect]) == ChainResult(Aborted(reason), [request])
  {
    ChainFailureStep(request, redirect, 0, opts, []);
  }

  /** tests/RedirectMiddlewareTest.php:15-25: a 200 is handed back. */
  method IgnoresNonRedirects() returns (outcome: Outcome, remaining: seq<Response>)
    ensures outcome.Returned? && outcome.response.status == 200
    ensures remaining == []
  {
    var mock := new MockHandler([Response(200, None)]);
    outcome := Send(mock, Get("http://example.com"), None);
    remaining := mock.queue;
  }

  /** tests/RedirectMiddlewareTest.php:27-37: a 304 without `Location` is
      handed back, with redirects off as in the scenario and with them on. */
  method IgnoresWhenNoLocation() returns (outcome: Outcome, enabled: Outcome)
    ensures outcome.Returned? && outcome.response.status == 304
    ensures enabled.Returned? && enabled.response.status == 304
  {
    var mock := new MockHandler([Response(304, None)]);
    outcome := Send(mock, Get("http://example.com"), None);
    var other := new MockHandler([Response(304, None)]);
    enabled := Send(other, Get("http://example.com"), Some(DefaultOptions));
    PassesThroughNonRedirects(Get("http://example.com"), Some(DefaultOptions), [Response(304, None)]);
  }

  /** tests/RedirectMiddlewareTest.php:39-55: the follow-up goes to the
      absolute `Location` exactly, and its response comes back. */
  method RedirectsWithAbsoluteUri() returns (outcome: Outcome, last: Option<Request>)
    ensures outcome.Returned? && outcome.response.status == 200
    ensures last.Some? && ToString(last.value.uri) == "http://test.com"
  {
    var redirect, final := Response(302, Some("http://test.com")), Response(200, None);
    var request := Get("http://example.com?a=b");
    var mock := new MockHandler([redirect, final]);
    outcome := Send(mock, request, Some(MaxOnly(2)));
    last := mock.lastRequest;
    ghost var target := Target(request, redirect);
    assert target.scheme == Some("http") && ToString(target) == "http://test.com" by {
      ReadTest();
      AbsoluteTarget(request, redirect);
    }
    assert Handle(request, Some(MaxOnly(2)), [redirect, final]) ==
      ChainResult(Returned(final), [request, Request("GET", target, NextHeaders(request, target, MaxOnly(2)))]) by {
      OneRedirect(request, redirect, MaxOnly(2), final);
    }
  }

  /** tests/RedirectMiddlewareTest.php:57-73: `/foo` keeps the scheme and the
      host, replaces the path and drops the query. */
  method RedirectsWithRelativeUri() returns (outcome: Outcome, last: Option<Request>)
    ensures outcome.Returned? && outcome.response.status == 200
    ensures last.Some? && ToString(last.value.uri) == "http://example.com/foo"
  {
    var redirect, final := Response(302, Some("/foo")), Response(200, None);
    var request := Get("http://example.com?a=b");
    var mock := new MockHandler([redirect, final]);
    outcome := Send(mock, request, Some(MaxOnly(2)));
    last := mock.lastRequest;
    ghost var target := Uri(Some("http"), Some("example.com"), "/foo", None);
    assert Target(request, redirect) == target by {
      ReadExampleWithQuery();
      ReadFoo();
    }
    assert ToString(target) == "http://example.com/foo" by {
      ReadExampleFoo();
    }
    assert Handle(request, Some(MaxOnly(2)), [redirect, final]) ==
      ChainResult(Returned(final), [request, Request("GET", target, NextHeaders(request, target, MaxOnly(2)))]) by {
      OneRedirect(request, redirect, MaxOnly(2), final);
    }
  }

  /** Responses with the given statuses, each redirecting to `http://test.com`. */
  function RedirectsToTest(statuses: seq<int>): (rs: seq<Response>)
    ensures |rs| == |statuses|
    ensures forall i :: 0 <= i < |rs| ==> rs[i] == Response(statuses[i], Some("http://test.com"))
  {
    if statuses == [] then [] else [Response(statuses[0], Some("http://test.com"))] + RedirectsToTest(statuses[1..])
  }

  /** `max + 1` redirects to `http://test.com` in a row: all are taken, and
      the chain fails for too many redirects. */
  lemma RedirectsPastMax(request: Request, statuses: seq<int>, max: nat)
    requires |statuses| == max + 1
    requires forall i :: 0 <= i < |statuses| ==> 300 <= statuses[i] < 400
    ensures var h := Handle(request, Some(MaxOnly(max)), RedirectsToTest(statuses));
      h.outcome == Aborted(TooManyRedirects(max)) && |h.sent| == max + 1
  {
    var rs := RedirectsToTest(statuses);
    var protocols := MaxOnly(max).protocols;
    ReadTest();
    assert AllRedirectToAllowed(rs[1..], protocols) by {
      AllToTestAllowed(rs[1..], protocols);
    }
    EndlessRedirectsHitMax(request, rs[0], 0, MaxOnly(max), rs[1..]);
  }

  lemma {:induction false} AllToTestAllowed(rs: seq<Response>, protocols: seq<string>)
    requires Parse("http://test.com").scheme == Some("http") && "http" in protocols
    requires forall i :: 0 <= i < |rs| ==> 300 <= rs[i].status < 400 && rs[i].location == Some("http://test.com")
    ensures AllRedirectToAllowed(rs, protocols)
  {
    if rs != [] {
      AllToTestAllowed(rs[1..], protocols);
    }
  }

  /** The message for a limit of 3, written out. */
  lemma ThreeRedirectsMessage()
    ensures Message(TooManyRedirects(3)) == "Will not follow more than 3 redirects"
  {
    assert Decimal.NatToString(3) == "3";
  }

  /** tests/RedirectMiddlewareTest.php:75-93: with max 3, the fourth
      redirect in a row fails with "Will not follow more than 3 redirects",
      after four requests have taken all four responses. */
  method LimitsToMaxRedirects() returns (outcome: Outcome, remaining: seq<Response>)
    ensures outcome == Aborted(TooManyRedirects(3))
    ensures Message(outcome.reason) == "Will not follow more than 3 redirects"
    ensures remaining == []
  {
    var responses := RedirectsToTest([301, 302, 303, 304]);
    var request := Get("http://example.com");
    var mock := new MockHandler(responses);
    outcome := Send(mock, request, Some(MaxOnly(3)));
    remaining := mock.queue;
    assert Handle(request, Some(MaxOnly(3)), responses).outcome == Aborted(TooManyRedirects(3))
      && |Handle(request, Some(MaxOnly(3)), responses).sent| == 4 by {
      RedirectsPastMax(request, [301, 302, 303, 304], 3);
    }
    ThreeRedirectsMessage();
  }

  /** tests/RedirectMiddlewareTest.php:95-109: an `ftp` target fails with a
      message opening with "Redirect URI,", and nothing more is sent. */
  method EnsuresProtocolIsValid() returns (outcome: Outcome, last: Option<Request>)
    ensures outcome.Aborted? && outcome.reason.InvalidProtocol?
    ensures var m := Message(outcome.reason); |m| >= 13 && m[..13] == "Redirect URI,"
    ensures last == Some(Get("http://example.com"))
  {
    var redirect := Response(301, Some("ftp://test.com"));
    var request := Get("http://example.com");
    var mock := new MockHandler([redirect]);
    outcome := Send(mock, request, Some(MaxOnly(3)));
    last := mock.lastRequest;
    assert !AllowedScheme(Target(request, redirect), MaxOnly(3).protocols) by {
      ReadFtpTest();
    }
    assert outcome.Aborted? && outcome.reason.InvalidProtocol? && last == Some(request) by {
      UnsupportedTarget(request, redirect, MaxOnly(3));
    }
    assert |Message(outcome.reason)| >= 13 && Message(outcome.reason)[..13] == "Redirect URI," by {
      ProtocolMessageNamesTarget(outcome.reason.target, outcome.reason.protocols);
    }
  }

  /** tests/RedirectMiddlewareTest.php:111-129: the follow-up carries the
      first URI, query included, as its `Referer`. */
  method AddsRefererHeader() returns (last: Option<Request>)
    ensures last.Some? && RefererHeader in last.value.headers
    ensures last.value.headers[RefererHeader] == "http://example.com?a=b"
  {
    var redirect, final := Response(302, Some("http://test.com")), Response(200, None);
    var request := Get("http://example.com?a=b");
    var mock := new MockHandler([redirect, final]);
    var _ := Send(mock, request, Some(MaxWithReferer(2)));
    last := mock.lastRequest;
    ghost var target := Target(request, redirect);
    assert target.scheme == Some("http") by {
      ReadTest();
    }
    ghost var u := Uri(Some("http"), Some("example.com"), "", Some("a=b"));
    assert request.uri == u && ToString(u) == "http://example.com?a=b" by {
      ReadExampleWithQuery();
    }
    ghost var next := Request("GET", target, map[RefererHeader := ToString(u)]);
    assert Handle(request, Some(MaxWithReferer(2)), [redirect, final]) ==
      ChainResult(Returned(final), [request, next]) by {
      OneRedirect(request, redirect, MaxWithReferer(2), final);
    }
  }

  /** tests/RedirectMiddlewareTest.php:131-146: going from https to http,
      the follow-up has no `Referer` at all. */
  method DoesNotAddRefererWhenGoingFromHttpsToHttp() returns (last: Option<Request>)
    ensures last.Some? && RefererHeader !in last.value.headers
  {
    var redirect, final := Response(302, Some("http://test.com")), Response(200, None);
    var request := Get("https://example.com?a=b");
    var mock := new MockHandler([redirect, final]);
    var _ := Send(mock, request, Some(MaxWithReferer(2)));
    last := mock.lastRequest;
    ghost var target := Target(request, redirect);
    assert target.scheme == Some("http") by {
      ReadTest();
    }
    assert request.uri.scheme == Some("https") by {
      ReadSecureExampleWithQuery();
    }
    assert Handle(request, Some(MaxWithReferer(2)), [redirect, final]) ==
      ChainResult(Returned(final), [request, Request("GET", target, NextHeaders(request, target, MaxWithReferer(2)))]) by {
      OneRedirect(request, redirect, MaxWithReferer(2), final);
    }
  }
}

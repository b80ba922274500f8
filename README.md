# Guzzle redirect middleware, modelled in Dafny

This project models how Guzzle's `RedirectMiddleware` follows HTTP redirects,
as its test suite `tests/RedirectMiddlewareTest.php` pins the behaviour down.
The middleware's own source is not part of this model. The model states what
the eight scenarios of that suite require, generalised to all inputs where
that is possible.

The model has five parts:

- `Uris` (`uris.dfy`) handles URI references.
  - `Parse` splits a string into scheme, authority, path and query, following
    the regular expression of appendix B of RFC 3986. Fragments are not
    modelled.
  - `ToString` writes a URI back, following section 5.3 of RFC 3986. An empty
    path with a query comes out as `http://example.com?a=b`.
  - `Resolve` resolves a `Location` reference against the current URI. It
    follows sections 5.2.2 and 5.2.3 of RFC 3986, without dot-segment removal.
- `Decimal` (`decimal.dfy`) writes a count in decimal, as it appears in the
  too-many-redirects message.
- `Redirects` (`redirects.dfy`) holds the one-step policy.
  - `Evaluate` takes the current request, the response it got, the number of
    redirects already followed and the `allow_redirects` options.
  - It decides one of three things:
    - `Terminal`: hand the response back.
    - `Follow(next)`: send the next request.
    - `Failure(reason)`: either `TooManyRedirects(max)` or
      `InvalidProtocol(target, protocols)`.
  - `Message(reason)` is the text of the exception a failure raises.
- `RedirectChain` (`chain.dfy`) drives a whole chain of redirects.
  - `MockHandler` is a class holding a queue of canned responses and the last
    request it received. `Dispatch` takes one response per request, as
    Guzzle's `MockHandler` does.
  - `Send` and `FollowRedirects` drive the chain imperatively over a handler.
  - They are proved against the pure functions `Handle` and `Chain`. The
    properties of a whole chain are proved about those functions.
- `Scenarios` (`scenarios.dfy`) has one method per test of the suite. Each
  method runs `Send` on a fresh `MockHandler` and states in its `ensures`
  what the test asserts.

A response is a redirect when its status is in 300..399 and it carries a
`Location` header. So a 304 with `Location` counts as a hop (lines 82-85),
and a 304 without one is handed back (lines 29-36). Passing no
`allow_redirects` option, as the first two tests do, turns the middleware off
(`config == None`).

## Model

| member | source | states |
|---|---|---|
| Redirects.EvaluateDecides | tests/RedirectMiddlewareTest.php:15-146 | The decision on a response, case by case, with every case stated as an if-and-only-if. The response is terminal exactly when it is not a 3xx with `Location`, and it is then handed back unchanged. It fails for too many redirects exactly when one more hop would pass `max`. It fails for the protocol exactly when the hop is within `max` and the resolved target's scheme is not allowed; the failure names that target and the allowed list. Otherwise the next request keeps the method and goes to the resolved target. `Referer` is set to the current URI, removed on an https-to-http downgrade, and untouched when the option is off. |
| Redirects.AbsoluteTarget | tests/RedirectMiddlewareTest.php:42-54 | A `Location` with a scheme is the target itself, and the target written back is exactly the `Location` string. |
| Redirects.TooManyMessageNamesMax | tests/RedirectMiddlewareTest.php:76-77 | The too-many-redirects message determines `max`: two limits give the same message only if they are equal. |
| Redirects.ProtocolMessageNamesTarget | tests/RedirectMiddlewareTest.php:96-97 | The unsupported-protocol message opens with `Redirect URI, `, then the offending target written out, then `, `. Its first 13 characters are `Redirect URI,`. |
| Redirects.FollowKeepsOtherHeaders | tests/RedirectMiddlewareTest.php:111-146 | Following a redirect leaves every header other than `Referer` as the current request had it: same presence, same value. |
| Uris.ToStringParse | tests/RedirectMiddlewareTest.php:54 | Writing back a parsed string gives back that string exactly. |
| Uris.ParseWellFormed | tests/RedirectMiddlewareTest.php:54 | Every parsed string is a well-formed URI, i.e. one that `ToString` writes unambiguously. |
| Uris.ParseToString | tests/RedirectMiddlewareTest.php:54 | Parsing a well-formed URI written out gives back the same URI, so parse and write are mutually inverse on well-formed URIs. |
| Uris.ResolveAbsoluteLocation | tests/RedirectMiddlewareTest.php:42-54 | A reference with a scheme resolves to itself, whatever the base. |
| Uris.ResolveAbsolutePath | tests/RedirectMiddlewareTest.php:60-72 | An absolute-path reference keeps the base's scheme and authority and takes its path and query from the reference. The base query is dropped. Written out, the result is the base's scheme and authority followed by the reference. |
| Uris.ResolveWellFormed | tests/RedirectMiddlewareTest.php:57-73 | Resolving a well-formed reference against a well-formed base gives a well-formed URI. |
| Uris.MergeAfterLastSlash | tests/RedirectMiddlewareTest.php:57-73 | A relative path is merged by keeping the base path up to its last `/` and appending the reference. Under an authority with an empty base path, the result is `/` followed by the reference. |
| Uris.MergeUnderAuthority | tests/RedirectMiddlewareTest.php:57-73 | Under an authority, a merged path is absolute and has no `?`. |
| Decimal.StringToNatOfNatToString | tests/RedirectMiddlewareTest.php:77 | The decimal writing of a count reads back as that count. |
| Decimal.NatToStringInjective | tests/RedirectMiddlewareTest.php:77 | Different counts are written differently. |
| RedirectChain.MockHandler.constructor | tests/RedirectMiddlewareTest.php:41-44 | A mock starts with the given queue and no last request. |
| RedirectChain.MockHandler.Dispatch | tests/RedirectMiddlewareTest.php:41-54 | A dispatch takes the front response and records the request as the last one. On an empty queue it returns nothing and changes nothing. |
| RedirectChain.Send | tests/RedirectMiddlewareTest.php:18-23 | The outcome is what `Handle` specifies for the handler's initial queue. Exactly as many responses as `Handle` sends requests are taken from the front of the queue, and the last request is the last one `Handle` sends. |
| RedirectChain.FollowRedirects | tests/RedirectMiddlewareTest.php:81-92 | The loop that follows redirects has the outcome, queue consumption and last request that `Chain` specifies. |
| RedirectChain.ChainStops | tests/RedirectMiddlewareTest.php:15-37 | Unless the step follows a redirect and a response is queued, no further request is sent. |
| RedirectChain.ChainSendsFollowUps | tests/RedirectMiddlewareTest.php:41-54 | Every follow-up request sent is the `Follow` decision on the previous response, at the hop count it was made at. |
| RedirectChain.ChainWithinMax | tests/RedirectMiddlewareTest.php:91 | A chain starting `hops` redirects in sends at most `max - hops` follow-ups. |
| RedirectChain.TooManyAfterExactlyMax | tests/RedirectMiddlewareTest.php:75-92 | A chain that fails for too many redirects has sent exactly `max - hops` follow-ups, and the reason names the configured `max`. |
| RedirectChain.EndlessRedirectsHitMax | tests/RedirectMiddlewareTest.php:75-92 | With enough redirects to allowed absolute targets queued, the chain fails with `TooManyRedirects(max)` after exactly `max - hops` follow-ups. |
| RedirectChain.FollowUpGoesToLocationAt | tests/RedirectMiddlewareTest.php:81-92 | By position along a chain of absolute, allowed redirects: the i-th request sent after the first goes to the `Location` of the i-th response, written out exactly. |
| RedirectChain.FollowUpGoesToLocation | tests/RedirectMiddlewareTest.php:42-54 | When an absolute, allowed redirect is followed, the next request's URI written out is the `Location` string. |
| RedirectChain.FollowUpsGoToLocations | tests/RedirectMiddlewareTest.php:81-92 | In a chain of absolute, allowed redirects, each follow-up goes exactly to the `Location` of the response before it. |
| RedirectChain.HandleWithinMax | tests/RedirectMiddlewareTest.php:91 | A handled request sends no more requests than there are queued responses. With redirects on, it sends at most `max + 1`. |
| RedirectChain.PassesThroughNonRedirects | tests/RedirectMiddlewareTest.php:15-37 | With redirects off, or when the first response is not a redirect, that response comes back and only the original request is sent. |
| Scenarios.OneRedirect | tests/RedirectMiddlewareTest.php:39-73 | One allowed redirect followed by a non-redirect: the original request and the follow-up are sent, and the final response comes back. |
| Scenarios.UnsupportedTarget | tests/RedirectMiddlewareTest.php:95-109 | A redirect to a disallowed scheme: only the original request is sent, and the chain fails naming the target and the allowed list. |
| Scenarios.RedirectsPastMax | tests/RedirectMiddlewareTest.php:81-91 | `max + 1` redirects to `http://test.com` in a row all get taken, and the chain fails for too many redirects. |
| Scenarios.ThreeRedirectsMessage | tests/RedirectMiddlewareTest.php:77 | The message for a limit of 3 is exactly `Will not follow more than 3 redirects`. |
| Scenarios.IgnoresNonRedirects | tests/RedirectMiddlewareTest.php:15-25 | A 200 is handed back, and the mock's queue is used up. |
| Scenarios.IgnoresWhenNoLocation | tests/RedirectMiddlewareTest.php:27-37 | A 304 without `Location` is handed back, both with redirects off and with the default options. |
| Scenarios.RedirectsWithAbsoluteUri | tests/RedirectMiddlewareTest.php:39-55 | The 200 comes back, and the last request sent went exactly to `http://test.com`. |
| Scenarios.RedirectsWithRelativeUri | tests/RedirectMiddlewareTest.php:57-73 | The 200 comes back, and the last request sent went to `http://example.com/foo`. |
| Scenarios.LimitsToMaxRedirects | tests/RedirectMiddlewareTest.php:75-93 | With max 3, the fourth redirect fails with `TooManyRedirects(3)`, whose message is exactly `Will not follow more than 3 redirects`. All four queued responses have been taken. |
| Scenarios.EnsuresProtocolIsValid | tests/RedirectMiddlewareTest.php:95-109 | An `ftp` target fails for the protocol with a message opening with `Redirect URI,`. The last request sent is still the original one. |
| Scenarios.AddsRefererHeader | tests/RedirectMiddlewareTest.php:111-129 | The follow-up carries `Referer: http://example.com?a=b`. |
| Scenarios.DoesNotAddRefererWhenGoingFromHttpsToHttp | tests/RedirectMiddlewareTest.php:131-146 | Going from https to http, the follow-up carries no `Referer` at all. |

## Left out

- Promises and `wait()` are left out. The chain is run synchronously.
- `HandlerStack` and middleware registration are left out. The middleware is the `Send` method called on the handler.
- PSR-7 request and response objects are replaced by small records.
  - A response carries only its status and its `Location` header.
  - A request carries its method, its URI and its headers.
  - Header names are compared case-sensitively.
  - A header has a single value. Multi-valued headers are not modelled.
  - Scheme names are not lower-cased.
- The exception classes are left out. A failure is a `FailureReason` value, and `Message` gives the exception text.
- Rewriting the method and body per status code is left out, and so are the `strict` flag, `Authorization` stripping across hosts, redirect history and cancellation. No line of the test suite exercises them.
- Redirects.EvaluateDecides, Redirects.FollowKeepsOtherHeaders: the follow-up keeps the request's method and every header other than `Referer` only because two rewrites are not modelled. One is the method rewrite per status code (a 303 becomes a GET). The other is stripping `Authorization` across hosts. The tests send only GET and read only `Referer`.
- URI fragments, userinfo, ports and dot-segment removal are not modelled.
- Every string parses as a URI reference, so the model has no failure for an unparseable `Location`.
- The `Referer` rule suppresses the header only on an https-to-http downgrade. Both Referer tests agree with this rule. They also agree with a rule that sets the header only when the scheme stays the same.
- Redirects.Message: after the opening `Redirect URI, ` and the target, the wording of the unsupported-protocol message is this model's own. The test pins only `Redirect URI,`.
- Guzzle's `MockHandler` throws an exception when it receives a request with an empty queue. The model reports this as the `QueueEmpty` outcome.
- Scenarios.IgnoresNonRedirects and Scenarios.IgnoresWhenNoLocation read the status code of the response that comes back, as the tests do. They do not compare the whole response object.

/**
 * The redirect policy: given the request just sent, the response it got,
 * the number of redirects already followed and the redirect options, decide
 * whether the response is handed back, followed with a new request, or ends
 * the chain with a failure.
 */
module Redirects {
  import opened Wrappers
  import opened Uris
  import Decimal

  /** A request: its method (verb), its target URI and its headers (one value per name). */
  datatype Request = Request(verb: string, uri: Uri, headers: map<string, string>)

  /** A response: its status code and its `Location` header, if any. */
  datatype Response = Response(status: int, location: Option<string>)

  /** The `allow_redirects` options: the most redirects to follow, whether to
      send a `Referer` header, and the schemes a redirect may go to. */
  datatype Options = Options(max: nat, referer: bool, protocols: seq<string>)

  const RefererHeader: string := "Referer"
  const DefaultProtocols: seq<string> := ["http", "https"]
  /** The options in force when `allow_redirects` gives only some of them. */
  const DefaultOptions: Options := Options(5, false, DefaultProtocols)

  /** Why a chain fails: the hop counter would pass `max`, or the target's
      scheme is not among the allowed protocols. */
  datatype FailureReason =
    | TooManyRedirects(max: nat)
    | InvalidProtocol(target: Uri, protocols: seq<string>)

  datatype Decision =
    | Terminal(response: Response)
    | Follow(next: Request)
    | Failure(reason: FailureReason)

  /** A response is a redirect when its status is in the 3xx class and it
      carries a `Location` header; a 304 with a `Location` is one, a 304
      without is not. */
  predicate IsRedirect(r: Response)
  {
    300 <= r.status < 400 && r.location.Some?
  }

  /** Where a redirect points: its `Location` resolved against the URI of the
      request that received it. */
  function Target(request: Request, response: Response): Uri
    requires response.location.Some?
  {
    Resolve(request.uri, Parse(response.location.value))
  }

  /** A `Location` with a scheme is where the redirect goes, exactly as written. */
  lemma AbsoluteTarget(request: Request, response: Response)
    requires response.location.Some? && Parse(response.location.value).scheme.Some?
    ensures Target(request, response) == Parse(response.location.value)
    ensures ToString(Target(request, response)) == response.location.value
  {
    ResolveAbsoluteLocation(request.uri, response.location.value);
  }

  predicate AllowedScheme(u: Uri, protocols: seq<string>)
  {
    u.scheme.Some? && u.scheme.value in protocols
  }

  /** Going from an `https` request to an `http` target. */
  predicate IsDowngrade(from: Uri, to: Uri)
  {
    from.scheme == Some("https") && to.scheme == Some("http")
  }

  function Join(items: seq<string>, separator: string): string
  {
    if |items| == 0 then ""
    else if |items| == 1 then items[0]
    else items[0] + separator + Join(items[1..], separator)
  }

  /** The message of the exception a failure raises. */
  function Message(reason: FailureReason): string
  {
    match reason
    case TooManyRedirects(max) =>
      "Will not follow more than " + Decimal.NatToString(max) + " redirects"
    case InvalidProtocol(target, protocols) =>
      ProtocolPrefix(target) + "uses an unsupported protocol; allowed: " + Join(protocols, ", ")
  }

  /** The opening of the message for a target whose scheme is not allowed. */
  function ProtocolPrefix(target: Uri): string
  {
    "Redirect URI, " + ToString(target) + ", "
  }

  /** The headers of the follow-up request: those of the current request,
      with `Referer` set to the current URI when the option asks for it,
      or removed when the redirect downgrades from https to http. */
  function NextHeaders(current: Request, target: Uri, opts: Options): map<string, string>
  {
    if !opts.referer then current.headers
    else if IsDowngrade(current.uri, target) then current.headers - {RefererHeader}
    else current.headers[RefererHeader := ToString(current.uri)]
  }

  /** One step of the redirect policy. `hops` is the number of redirects
      already followed in this chain. */
  function Evaluate(request: Request, response: Response, hops: nat, opts: Options): Decision
  {
    if !IsRedirect(response) then Terminal(response)
    else if hops + 1 > opts.max then Failure(TooManyRedirects(opts.max))
    else
      var target := Target(request, response);
      if !AllowedScheme(target, opts.protocols) then
        Failure(InvalidProtocol(target, opts.protocols))
      else Follow(Request(request.verb, target, NextHeaders(request, target, opts)))
  }

  /** What the policy decides, case by case: `d` is the decision on
      `response`, received by `request` after `hops` redirects. */
  lemma EvaluateDecides(request: Request, response: Response, hops: nat, opts: Options, d: Decision)
    requires d == Evaluate(request, response, hops, opts)
    // a response that is not a redirect is handed back unchanged
    ensures d.Terminal? <==> !IsRedirect(response)
    ensures d.Terminal? ==> d.response == response
    // the hop counter may not pass max
    ensures (d.Failure? && d.reason.TooManyRedirects?) <==> IsRedirect(response) && hops + 1 > opts.max
    ensures d.Failure? && d.reason.TooManyRedirects? ==> d.reason.max == opts.max
    // the target's scheme must be allowed
    ensures (d.Failure? && d.reason.InvalidProtocol?) <==>
      IsRedirect(response) && hops + 1 <= opts.max && !AllowedScheme(Target(request, response), opts.protocols)
    ensures d.Failure? && d.reason.InvalidProtocol? ==>
      d.reason.target == Target(request, response) && d.reason.protocols == opts.protocols
    // the follow-up request goes to the target, with the same method
    ensures d.Follow? ==>
      && hops + 1 <= opts.max
      && d.next.uri == Target(request, response)
      && AllowedScheme(d.next.uri, opts.protocols)
      && d.next.verb == request.verb
    // the Referer rule
    ensures d.Follow? && opts.referer && !IsDowngrade(request.uri, d.next.uri) ==>
      RefererHeader in d.next.headers && d.next.headers[RefererHeader] == ToString(request.uri)
    ensures d.Follow? && opts.referer && IsDowngrade(request.uri, d.next.uri) ==>
      RefererHeader !in d.next.headers
    ensures d.Follow? && !opts.referer ==> d.next.headers == request.headers
  {
  }

  /** The too-many-redirects message names the limit: different limits give
      different messages. */
  lemma TooManyMessageNamesMax(m: nat, n: nat)
    ensures Message(TooManyRedirects(m)) == Message(TooManyRedirects(n)) <==> m == n
  {
    var pre, post := "Will not follow more than ", " redirects";
    if Message(TooManyRedirects(m)) == Message(TooManyRedirects(n)) {
      var sm, sn := Decimal.NatToString(m), Decimal.NatToString(n);
      assert pre + sm + post == pre + sn + post;
      assert |sm| == |sn|;
      assert sm == (pre + sm + post)[|pre|..|pre| + |sm|];
      assert sn == (pre + sn + post)[|pre|..|pre| + |sn|];
      Decimal.NatToStringInjective(m, n);
    }
  }

  /** The unsupported-protocol message opens with `Redirect URI, `, the
      target written out, and `, `. */
  lemma ProtocolMessageNamesTarget(target: Uri, protocols: seq<string>)
    ensures var prefix := "Redirect URI, " + ToString(target) + ", ";
      var m := Message(InvalidProtocol(target, protocols));
      |prefix| <= |m| && m[..|prefix|] == prefix
    ensures var m := Message(InvalidProtocol(target, protocols));
      |m| >= 13 && m[..13] == "Redirect URI,"
  {
    var prefix := ProtocolPrefix(target);
    var m := Message(InvalidProtocol(target, protocols));
    assert m == prefix + ("uses an unsupported protocol; allowed: " + Join(protocols, ", "));
    assert m[..13] == prefix[..13] == "Redirect URI, "[..13];
  }

  /** Following a redirect changes no header other than `Referer`. */
  lemma FollowKeepsOtherHeaders(request: Request, response: Response, hops: nat, opts: Options, h: string)
    requires Evaluate(request, response, hops, opts).Follow?
    requires h != RefererHeader
    ensures var next := Evaluate(request, response, hops, opts).next;
      && (h in next.headers <==> h in request.headers)
      && (h in request.headers ==> next.headers[h] == request.headers[h])
  {
  }
}

/**
 * The hop driver: it sends a request through a mock transport, hands each
 * response to the redirect policy and sends the follow-up requests it asks
 * for, until a response is handed back or the chain fails.
 */
module RedirectChain {
  import opened Wrappers
  import opened Uris
  import opened Redirects

  /** What the caller of the chain sees: the final response, a failure of the
      redirect policy, or the mock transport running out of responses. */
  datatype Outcome =
    | Returned(response: Response)
    | Aborted(reason: FailureReason)
    | QueueEmpty

  /** The outcome of a chain and the requests that got a response, in order. */
  datatype ChainResult = ChainResult(outcome: Outcome, sent: seq<Request>)

  /** The transport used by the scenarios: a queue of prepared responses,
      one taken per request, and the last request that got one. */
  class MockHandler {
    var queue: seq<Response>
    var lastRequest: Option<Request>

    constructor (responses: seq<Response>)
      ensures queue == responses && lastRequest == None
    {
      queue := responses;
      lastRequest := None;
    }

    /** Answers a request with the next queued response; with an empty queue
        it answers nothing and records nothing. */
    method Dispatch(request: Request) returns (response: Option<Response>)
      modifies this
      ensures old(queue) == [] ==> response == None && queue == old(queue) && lastRequest == old(lastRequest)
      ensures old(queue) != [] ==>
        response == Some(old(queue)[0]) && queue == old(queue)[1..] && lastRequest == Some(request)
    {
      if queue == [] {
        response := None;
      } else {
        response := Some(queue[0]);
        queue := queue[1..];
        lastRequest := Some(request);
      }
    }
  }

  /** The rest of a chain: `current` got `response`, `hops` redirects have been
      followed, and `queue` holds the responses the transport has left. */
  function Chain(current: Request, response: Response, hops: nat, opts: Options, queue: seq<Response>): (c: ChainResult)
    ensures |c.sent| <= |queue|
    decreases |queue|
  {
    match Evaluate(current, response, hops, opts)
    case Terminal(r) => ChainResult(Returned(r), [])
    case Failure(reason) => ChainResult(Aborted(reason), [])
    case Follow(next) =>
      if queue == [] then ChainResult(QueueEmpty, [])
      else
        var rest := Chain(next, queue[0], hops + 1, opts, queue[1..]);
        ChainResult(rest.outcome, [next] + rest.sent)
  }

  /** A whole chain for `request`. Without redirect options (`None`) the
      middleware passes the first response through untouched. */
  function Handle(request: Request, config: Option<Options>, queue: seq<Response>): ChainResult
  {
    if queue == [] then ChainResult(QueueEmpty, [])
    else if config.None? then ChainResult(Returned(queue[0]), [request])
    else
      var rest := Chain(request, queue[0], 0, config.value, queue[1..]);
      ChainResult(rest.outcome, [request] + rest.sent)
  }

  /** The last request of sent, or `otherwise` when none was sent. */
  function LastOr(sent: seq<Request>, otherwise: Option<Request>): Option<Request>
  {
    if sent == [] then otherwise else Some(sent[|sent| - 1])
  }

  /** Runs the chain for `request` on `handler`: the outcome is that of Handle,
      the handler has given out one response per request sent, and its last
      request is the last one sent. */
  method Send(handler: MockHandler, request: Request, config: Option<Options>) returns (outcome: Outcome)
    modifies handler
    ensures var spec := Handle(request, config, old(handler.queue));
      && outcome == spec.outcome
      && |spec.sent| <= |old(handler.queue)|
      && handler.queue == old(handler.queue)[|spec.sent|..]
      && handler.lastRequest == LastOr(spec.sent, old(handler.lastRequest))
  {
    var first := handler.Dispatch(request);
    if first.None? {
      return QueueEmpty;
    }
    if config.None? {
      return Returned(first.value);
    }
    ghost var queue := handler.queue;
    outcome := FollowRedirects(handler, request, first.value, 0, config.value);
    ghost var c := Chain(request, first.value, 0, config.value, queue);
    assert LastOr([request] + c.sent, old(handler.lastRequest)) == LastOr(c.sent, Some(request));
    assert old(handler.queue)[1 + |c.sent|..] == queue[|c.sent|..];
  }

  /** Hands `response`, received by `current` after `hops` redirects, to the
      policy and sends the follow-ups it asks for, one response taken from
      the handler per request, until the chain ends as Chain says. */
  method FollowRedirects(handler: MockHandler, current: Request, response: Response, hops: nat, opts: Options)
    returns (outcome: Outcome)
    modifies handler
    ensures var c := Chain(current, response, hops, opts, old(handler.queue));
      && outcome == c.outcome
      && handler.queue == old(handler.queue)[|c.sent|..]
      && handler.lastRequest == LastOr(c.sent, old(handler.lastRequest))
  {
    var request, answer, h := current, response, hops;
    ghost var sent: seq<Request> := [];
    while true
      invariant |sent| <= |old(handler.queue)| && handler.queue == old(handler.queue)[|sent|..]
      invariant handler.lastRequest == LastOr(sent, old(handler.lastRequest))
      invariant var rest := Chain(request, answer, h, opts, handler.queue);
        Chain(current, response, hops, opts, old(handler.queue)) == ChainResult(rest.outcome, sent + rest.sent)
      decreases |handler.queue|
    {
      var decision := Evaluate(request, answer, h, opts);
      match decision
      case Terminal(r) =>
        assert Chain(request, answer, h, opts, handler.queue) == ChainResult(Returned(r), []) by {
          ChainTerminalStep(request, answer, h, opts, handler.queue);
        }
        assert sent + [] == sent;
        return Returned(r);
      case Failure(reason) =>
        assert Chain(request, answer, h, opts, handler.queue) == ChainResult(Aborted(reason), []) by {
          ChainFailureStep(request, answer, h, opts, handler.queue);
        }
        assert sent + [] == sent;
        return Aborted(reason);
      case Follow(next) =>
        ghost var queue := handler.queue;
        var got := handler.Dispatch(next);
        if got.None? {
          assert Chain(request, answer, h, opts, queue) == ChainResult(QueueEmpty, []) by {
            ChainExhaustedStep(request, answer, h, opts);
          }
          assert sent + [] == sent;
          return QueueEmpty;
        }
        ghost var rest := Chain(next, got.value, h + 1, opts, handler.queue);
        assert Chain(request, answer, h, opts, queue) == ChainResult(rest.outcome, [next] + rest.sent) by {
          ChainFollowStep(request, answer, h, opts, queue);
        }
        assert sent + ([next] + rest.sent) == (sent + [next]) + rest.sent;
        sent := sent + [next];
        request, answer, h := next, got.value, h + 1;
    }
  }

  /** A step that hands the response back. */
  lemma ChainTerminalStep(current: Request, response: Response, hops: nat, opts: Options, queue: seq<Response>)
    requires Evaluate(current, response, hops, opts).Terminal?
    ensures Chain(current, response, hops, opts, queue) == ChainResult(Returned(response), [])
  {
  }

  /** A step that asks for a follow-up when no response remains. */
  lemma ChainExhaustedStep(current: Request, response: Response, hops: nat, opts: Options)
    requires Evaluate(current, response, hops, opts).Follow?
    ensures Chain(current, response, hops, opts, []) == ChainResult(QueueEmpty, [])
  {
  }

  /** A step that follows a redirect while responses remain. */
  lemma ChainFollowStep(current: Request, response: Response, hops: nat, opts: Options, queue: seq<Response>)
    requires Evaluate(current, response, hops, opts).Follow? && queue != []
    ensures var next := Evaluate(current, response, hops, opts).next;
      var rest := Chain(next, queue[0], hops + 1, opts, queue[1..]);
      Chain(current, response, hops, opts, queue) == ChainResult(rest.outcome, [next] + rest.sent)
  {
  }

  /** A step that ends the chain with the policy's failure. */
  lemma ChainFailureStep(current: Request, response: Response, hops: nat, opts: Options, queue: seq<Response>)
    requires Evaluate(current, response, hops, opts).Failure?
    ensures var d := Evaluate(current, response, hops, opts);
      Chain(current, response, hops, opts, queue) == ChainResult(Aborted(d.reason), [])
  {
  }

  /** `sent` is the run of follow-ups the policy asks for, starting from
      `current`, which got `responses[0]` after `hops` redirects: each
      request answers the decision on the request before it and the
      response that request got. */
  predicate FollowUpsOf(current: Request, responses: seq<Response>, hops: nat, opts: Options, sent: seq<Request>)
    decreases |sent|
  {
    |sent| <= |responses| &&
    (sent == [] ||
      (Evaluate(current, responses[0], hops, opts) == Follow(sent[0]) &&
       FollowUpsOf(sent[0], responses[1..], hops + 1, opts, sent[1..])))
  }

  /** The requests a chain sends are exactly the follow-ups the policy asks
      for. */
  lemma {:induction false} ChainSendsFollowUps(current: Request, response: Response, hops: nat, opts: Options, queue: seq<Response>)
    ensures FollowUpsOf(current, [response] + queue, hops, opts, Chain(current, response, hops, opts, queue).sent)
    decreases |queue|
  {
    var d := Evaluate(current, response, hops, opts);
    if d.Follow? && queue != [] {
      var rest := Chain(d.next, queue[0], hops + 1, opts, queue[1..]);
      assert Chain(current, response, hops, opts, queue).sent == [d.next] + rest.sent by {
        ChainFollowStep(current, response, hops, opts, queue);
      }
      assert FollowUpsOf(d.next, queue, hops + 1, opts, rest.sent) by {
        ChainSendsFollowUps(d.next, queue[0], hops + 1, opts, queue[1..]);
        assert [queue[0]] + queue[1..] == queue;
      }
      assert ([response] + queue)[1..] == queue;
      assert ([d.next] + rest.sent)[1..] == rest.sent;
    } else {
      ChainStops(current, response, hops, opts, queue);
    }
  }

  /** The hop counter never passes max: a chain started after `hops`
      redirects sends at most `max - hops` follow-up requests. */
  lemma {:induction false} ChainWithinMax(current: Request, response: Response, hops: nat, opts: Options, queue: seq<Response>)
    requires hops <= opts.max
    ensures |Chain(current, response, hops, opts, queue).sent| <= opts.max - hops
    decreases |queue|
  {
    var d := Evaluate(current, response, hops, opts);
    if d.Follow? && queue != [] {
      ChainWithinMax(d.next, queue[0], hops + 1, opts, queue[1..]);
    } else {
      ChainStops(current, response, hops, opts, queue);
    }
  }

  /** A chain fails for too many redirects only once it has sent exactly
      `max - hops` follow-ups, that is, after max redirects in all. */
  lemma {:induction false} TooManyAfterExactlyMax(current: Request, response: Response, hops: nat, opts: Options, queue: seq<Response>)
    requires hops <= opts.max
    requires Chain(current, response, hops, opts, queue).outcome.Aborted?
    requires Chain(current, response, hops, opts, queue).outcome.reason.TooManyRedirects?
    ensures |Chain(current, response, hops, opts, queue).sent| == opts.max - hops
    ensures Chain(current, response, hops, opts, queue).outcome.reason == TooManyRedirects(opts.max)
    decreases |queue|
  {
    var d := Evaluate(current, response, hops, opts);
    if d.Terminal? {
      ChainTerminalStep(current, response, hops, opts, queue);
    } else if d.Failure? {
      ChainFailureStep(current, response, hops, opts, queue);
      EvaluateDecides(current, response, hops, opts, d);
    } else if queue == [] {
      ChainExhaustedStep(current, response, hops, opts);
    } else {
      var rest := Chain(d.next, queue[0], hops + 1, opts, queue[1..]);
      assert Chain(current, response, hops, opts, queue) == ChainResult(rest.outcome, [d.next] + rest.sent) by {
        ChainFollowStep(current, response, hops, opts, queue);
      }
      assert hops + 1 <= opts.max by {
        EvaluateDecides(current, response, hops, opts, d);
      }
      TooManyAfterExactlyMax(d.next, queue[0], hops + 1, opts, queue[1..]);
    }
  }

  /** A response whose `Location` is an absolute URI with an allowed scheme. */
  predicate RedirectsToAllowed(r: Response, protocols: seq<string>)
  {
    IsRedirect(r) && AllowedScheme(Parse(r.location.value), protocols)
  }

  /** Every response of rs redirects to an allowed absolute URI. */
  predicate AllRedirectToAllowed(rs: seq<Response>, protocols: seq<string>)
  {
    rs == [] || (RedirectsToAllowed(rs[0], protocols) && AllRedirectToAllowed(rs[1..], protocols))
  }

  /** Redirect after redirect to allowed absolute targets: with enough
      responses queued, the chain sends `max - hops` follow-ups and then fails
      for too many redirects. */
  lemma {:induction false} EndlessRedirectsHitMax(current: Request, response: Response, hops: nat, opts: Options, queue: seq<Response>)
    requires hops <= opts.max
    requires RedirectsToAllowed(response, opts.protocols) && AllRedirectToAllowed(queue, opts.protocols)
    requires |queue| >= opts.max - hops
    ensures Chain(current, response, hops, opts, queue).outcome == Aborted(TooManyRedirects(opts.max))
    ensures |Chain(current, response, hops, opts, queue).sent| == opts.max - hops
    decreases |queue|
  {
    var d := Evaluate(current, response, hops, opts);
    if hops < opts.max {
      assert d.Follow? by {
        EvaluateDecides(current, response, hops, opts, d);
        assert Target(current, response) == Parse(response.location.value);
      }
      var rest := Chain(d.next, queue[0], hops + 1, opts, queue[1..]);
      assert Chain(current, response, hops, opts, queue) == ChainResult(rest.outcome, [d.next] + rest.sent) by {
        ChainFollowStep(current, response, hops, opts, queue);
      }
      EndlessRedirectsHitMax(d.next, queue[0], hops + 1, opts, queue[1..]);
    } else {
      assert d == Failure(TooManyRedirects(opts.max));
      ChainFailureStep(current, response, hops, opts, queue);
    }
  }

  /** Each request of `sent` went to the `Location` of the response at the
      same place in `responses`, written out exactly. */
  predicate LocationsLead(responses: seq<Response>, sent: seq<Request>)
  {
    |sent| <= |responses| &&
    (sent == [] ||
      (responses[0].location == Some(ToString(sent[0].uri)) && LocationsLead(responses[1..], sent[1..])))
  }

  /** LocationsLead, position by position. */
  lemma {:induction false} LocationsLeadAt(responses: seq<Response>, sent: seq<Request>, i: nat)
    requires LocationsLead(responses, sent) && i < |sent|
    ensures responses[i].location == Some(ToString(sent[i].uri))
    decreases i
  {
    if i > 0 {
      LocationsLeadAt(responses[1..], sent[1..], i - 1);
    }
  }

  /** The request that follows a redirect to an absolute `Location` goes to
      that `Location`, written out exactly. */
  lemma FollowUpGoesToLocation(current: Request, response: Response, hops: nat, opts: Options)
    requires RedirectsToAllowed(response, opts.protocols)
    requires Evaluate(current, response, hops, opts).Follow?
    ensures response.location == Some(ToString(Evaluate(current, response, hops, opts).next.uri))
  {
    AbsoluteTarget(current, response);
  }

  /** A step that sends nothing more: a response handed back, a failure, or
      a follow-up with no response left. */
  lemma ChainStops(current: Request, response: Response, hops: nat, opts: Options, queue: seq<Response>)
    requires !(Evaluate(current, response, hops, opts).Follow? && queue != [])
    ensures Chain(current, response, hops, opts, queue).sent == []
  {
  }

  /** The induction step of FollowUpsGoToLocations. */
  lemma LeadStep(response: Response, queue: seq<Response>, next: Request, sent: seq<Request>)
    requires response.location == Some(ToString(next.uri))
    requires LocationsLead(queue, sent)
    ensures LocationsLead([response] + queue, [next] + sent)
  {
    assert ([response] + queue)[1..] == queue;
    assert ([next] + sent)[1..] == sent;
  }

  /** Each follow-up request goes to the `Location` of the response before
      it, when every `Location` is an absolute URI with an allowed scheme:
      its URI, written out, is that `Location` exactly. */
  lemma {:induction false} FollowUpsGoToLocations(current: Request, response: Response, hops: nat, opts: Options, queue: seq<Response>)
    requires RedirectsToAllowed(response, opts.protocols) && AllRedirectToAllowed(queue, opts.protocols)
    ensures LocationsLead([response] + queue, Chain(current, response, hops, opts, queue).sent)
    decreases |queue|
  {
    var d := Evaluate(current, response, hops, opts);
    if d.Follow? && queue != [] {
      var rest := Chain(d.next, queue[0], hops + 1, opts, queue[1..]);
      assert Chain(current, response, hops, opts, queue).sent == [d.next] + rest.sent by {
        ChainFollowStep(current, response, hops, opts, queue);
      }
      assert response.location == Some(ToString(d.next.uri)) by {
        FollowUpGoesToLocation(current, response, hops, opts);
      }
      assert LocationsLead(queue, rest.sent) by {
        FollowUpsGoToLocations(d.next, queue[0], hops + 1, opts, queue[1..]);
        assert [queue[0]] + queue[1..] == queue;
      }
      LeadStep(response, queue, d.next, rest.sent);
    } else {
      ChainStops(current, response, hops, opts, queue);
    }
  }

  /** FollowUpsGoToLocations, position by position: the i-th follow-up of
      the chain goes to the `Location` of the i-th response, written out
      exactly. */
  lemma FollowUpGoesToLocationAt(current: Request, response: Response, hops: nat, opts: Options, queue: seq<Response>, i: nat)
    requires RedirectsToAllowed(response, opts.protocols) && AllRedirectToAllowed(queue, opts.protocols)
    requires i < |Chain(current, response, hops, opts, queue).sent|
    ensures ([response] + queue)[i].location == Some(ToString(Chain(current, response, hops, opts, queue).sent[i].uri))
  {
    FollowUpsGoToLocations(current, response, hops, opts, queue);
    LocationsLeadAt([response] + queue, Chain(current, response, hops, opts, queue).sent, i);
  }

  /** A whole chain sends at most max + 1 requests (the first and at most max
      follow-ups), and never more than there are responses. */
  lemma HandleWithinMax(request: Request, config: Option<Options>, queue: seq<Response>)
    ensures |Handle(request, config, queue).sent| <= |queue|
    ensures config.Some? ==> |Handle(request, config, queue).sent| <= config.value.max + 1
  {
    if queue != [] && config.Some? {
      ChainWithinMax(request, queue[0], 0, config.value, queue[1..]);
    }
  }

  /** A response that is not a redirect, or any response when redirects are
      not enabled, is handed back unchanged after the one request. */
  lemma PassesThroughNonRedirects(request: Request, config: Option<Options>, queue: seq<Response>)
    requires queue != [] && (config.None? || !IsRedirect(queue[0]))
    ensures Handle(request, config, queue) == ChainResult(Returned(queue[0]), [request])
  {
  }
}

/** The request handler of the edge function: validate the body, collect
    the repository signals, render the prompt, check the API key, call the
    scorer, select and parse the JSON span, respond. External effects are
    inputs (`World`) and a record of the calls made (`Outcome.calls`).
 */
module Handler {
  import opened Outcomes
  import opened Text
  import RepoUrl
  import Signals
  import Prompt
  import ResponseSpan

  const MissingUrlMessage := "Repository URL is required"
  const MissingRoleMessage := "Role selection is required"
  const MissingKeyMessage := "LOVABLE_API_KEY is not configured"
  const RateLimitMessage := "Rate limit exceeded. Please try again later."
  const CreditsMessage := "AI credits exhausted. Please add credits to continue."
  const ScorerFailedMessage := "AI evaluation failed"
  const EmptyReplyMessage := "No response from AI"
  const ParseFailedMessage := "Failed to parse evaluation results"

  /** The parsed request body: `req.json()` threw, or the two fields read
      from it (`None` for absent or `null`). */
  datatype RequestBody = Unparsable(reason: string) | Fields(repoUrl: Option<string>, role: Option<string>)

  /** A CORS preflight (`OPTIONS`) or any other request carrying a body. */
  datatype Request = Preflight | Submit(body: RequestBody)

  /** The reply of the chat-completion call: `fetch` threw, a non-ok
      status (with the error `response.text()` threw, if it did), a body that
      is not JSON, or `choices[0].message.content`. */
  datatype ScorerReply =
    | ScorerRejected(reason: string)
    | ScorerNotOk(status: int, textError: Option<string>)
    | ScorerUnreadable(reason: string)
    | ScorerAnswered(content: Option<string>)

  /** Everything outside the handler: the GitHub replies, the configured
      key, the scorer's reply and `JSON.parse` (`None` when it throws). */
  datatype World<J> = World(
    github: Signals.GitHubReplies,
    apiKey: Option<string>,
    scorer: ScorerReply,
    parse: string -> Option<J>)

  /** A call the handler issued: the four GitHub lookups for one repository,
      or the scorer request with its user message. */
  datatype Call = GitHubLookups(key: RepoUrl.RepoKey) | ScorerRequest(prompt: string)

  datatype RepoMeta = RepoMeta(name: string, language: string, stars: int)

  /** The JSON body of the response: none (preflight), `{ error }`, or
      `{ success: true, evaluation, repoMeta }`. */
  datatype Body<J> = NoBody | ErrorBody(error: string) | SuccessBody(evaluation: J, repoMeta: RepoMeta)

  datatype Response<J> = Response(status: int, body: Body<J>)

  datatype Outcome<J> = Outcome(response: Response<J>, calls: seq<Call>)

  function Fail<J>(status: int, message: string, calls: seq<Call>): Outcome<J> {
    Outcome(Response(status, ErrorBody(message)), calls)
  }

  /** Everything after the scorer call. */
  function Score<J>(signals: Signals.RepoSignals, world: World<J>, calls: seq<Call>): (o: Outcome<J>)
    ensures o.calls == calls
    ensures o.response.status in {200, 402, 429, 500}
    ensures world.scorer.ScorerRejected? || world.scorer.ScorerUnreadable? ==>
      o.response == Response(500, ErrorBody(world.scorer.reason))
    ensures o.response.status == 429 <==> world.scorer.ScorerNotOk? && world.scorer.status == 429
    ensures o.response.status == 402 <==> world.scorer.ScorerNotOk? && world.scorer.status == 402
    ensures o.response.status == 200 <==>
      && world.scorer.ScorerAnswered? && Truthy(world.scorer.content)
      && world.parse(ResponseSpan.SelectSpan(world.scorer.content.value)).Some?
    ensures o.response.status == 200 ==>
      o.response.body == SuccessBody(world.parse(ResponseSpan.SelectSpan(world.scorer.content.value)).value,
                                     RepoMeta(signals.name, signals.language, signals.stars))
    ensures world.scorer.ScorerNotOk? && world.scorer.status !in {429, 402} ==>
      o.response == Response(500, ErrorBody(
        if world.scorer.textError.Some? then world.scorer.textError.value else ScorerFailedMessage))
    ensures world.scorer.ScorerAnswered? && !Truthy(world.scorer.content) ==>
      o.response == Response(500, ErrorBody(EmptyReplyMessage))
    ensures world.scorer.ScorerAnswered? && Truthy(world.scorer.content)
            && world.parse(ResponseSpan.SelectSpan(world.scorer.content.value)).None? ==>
      o.response == Response(500, ErrorBody(ParseFailedMessage))
  {
    match world.scorer
    case ScorerRejected(reason) => Fail(500, reason, calls)
    case ScorerNotOk(status, textError) =>
      if status == 429 then Fail(429, RateLimitMessage, calls)
      else if status == 402 then Fail(402, CreditsMessage, calls)
      else if textError.Some? then Fail(500, textError.value, calls)
      else Fail(500, ScorerFailedMessage, calls)
    case ScorerUnreadable(reason) => Fail(500, reason, calls)
    case ScorerAnswered(content) =>
      if !Truthy(content) then Fail(500, EmptyReplyMessage, calls)
      else
        match world.parse(ResponseSpan.SelectSpan(content.value))
        case None => Fail(500, ParseFailedMessage, calls)
        case Some(evaluation) =>
          Outcome(Response(200, SuccessBody(evaluation, RepoMeta(signals.name, signals.language, signals.stars))), calls)
  }

  /** The `serve` callback. */
  function Handle<J>(req: Request, world: World<J>): (o: Outcome<J>)
    ensures o.response.status in {200, 400, 402, 429, 500}
    ensures req.Preflight? ==> o == Outcome(Response(200, NoBody), [])
    ensures o.response.status == 400 <==>
      req.Submit? && req.body.Fields? && (!Truthy(req.body.repoUrl) || !Truthy(req.body.role))
    ensures o.response.status == 400 ==> o.calls == []
    ensures o.response.status == 400 ==>
      o.response.body == ErrorBody(if !Truthy(req.body.repoUrl) then MissingUrlMessage else MissingRoleMessage)
    ensures req.Submit? && req.body.Unparsable? ==> o == Outcome(Response(500, ErrorBody(req.body.reason)), [])
  {
    match req
    case Preflight => Outcome(Response(200, NoBody), [])
    case Submit(Unparsable(reason)) => Fail(500, reason, [])
    case Submit(Fields(repoUrl, role)) =>
      if !Truthy(repoUrl) then Fail(400, MissingUrlMessage, [])
      else if !Truthy(role) then Fail(400, MissingRoleMessage, [])
      else
        var fetched := Signals.FetchGitHubData(repoUrl.value, world.github);
        var lookups := if fetched.lookups.Some? then [GitHubLookups(fetched.lookups.value)] else [];
        match fetched.result
        case Failure(e) => Fail(500, e, lookups)
        case Success(signals) =>
          var prompt := Prompt.Render(role.value, signals);
          if !Truthy(world.apiKey) then Fail(500, MissingKeyMessage, lookups)
          else Score(signals, world, lookups + [ScorerRequest(prompt)])
  }

  /** The request got past body validation. */
  predicate Validated(req: Request) {
    req.Submit? && req.body.Fields? && Truthy(req.body.repoUrl) && Truthy(req.body.role)
  }

  /** Every stage before the scorer call succeeds. */
  predicate ReachesScorer<J>(req: Request, world: World<J>) {
    && Validated(req)
    && RepoUrl.Parse(req.body.repoUrl.value).Success?
    && Signals.Collect(world.github).Success?
    && Truthy(world.apiKey)
  }

  /** Past every earlier stage, the outcome is the scorer step's, after the
      lookups and the scorer request carrying the rendered prompt. */
  lemma HandleAtScorer<J>(req: Request, world: World<J>)
    requires ReachesScorer(req, world)
    ensures var signals := Signals.Collect(world.github).value;
      Handle(req, world) == Score(signals, world, [
        GitHubLookups(RepoUrl.Parse(req.body.repoUrl.value).value),
        ScorerRequest(Prompt.Render(req.body.role.value, signals))])
  {
  }

  /** Short of the scorer, the handler issues at most the lookups, answers
      with 200, 400 or 500, and does not depend on the scorer's reply. */
  lemma HandleBeforeScorer<J>(req: Request, world: World<J>, scorer: ScorerReply)
    requires !ReachesScorer(req, world)
    ensures forall c :: c in Handle(req, world).calls ==> c.GitHubLookups?
    ensures Handle(req, world).response.status in {200, 400, 500}
    ensures Handle(req, world.(scorer := scorer)) == Handle(req, world)
  {
  }

  /** A URL the server pattern rejects fails before any lookup is issued. */
  lemma InvalidUrlMakesNoCalls<J>(req: Request, world: World<J>)
    requires Validated(req)
    requires !RepoUrl.ServerPatternMatches(req.body.repoUrl.value)
    ensures Handle(req, world) == Outcome(Response(500, ErrorBody(RepoUrl.InvalidUrlMessage)), [])
  {
  }

  /** A non-ok metadata reply fails after the lookups and before the scorer,
      carrying the API's message or else the status code. */
  lemma NotFoundSkipsScorer<J>(req: Request, world: World<J>)
    requires Validated(req)
    requires RepoUrl.Parse(req.body.repoUrl.value).Success?
    requires world.github.meta.NotOk?
    ensures Handle(req, world).response ==
      Response(500, ErrorBody(Signals.NotFoundMessage(world.github.meta.status, world.github.meta.message)))
    ensures Handle(req, world).calls == [GitHubLookups(RepoUrl.Parse(req.body.repoUrl.value).value)]
  {
  }

  /** Any failure while collecting the signals (a rejected or unreadable
      reply, a README `atob` rejects) is answered with 500 and that
      failure's own message, after the lookups and before the scorer. */
  lemma LookupFailureSurfaces<J>(req: Request, world: World<J>)
    requires Validated(req)
    requires RepoUrl.Parse(req.body.repoUrl.value).Success?
    requires Signals.Collect(world.github).Failure?
    ensures Handle(req, world) == Outcome(Response(500, ErrorBody(Signals.Collect(world.github).error)),
                                          [GitHubLookups(RepoUrl.Parse(req.body.repoUrl.value).value)])
  {
  }

  /** The scorer is called exactly when every earlier stage succeeded, and
      it receives the prompt rendered from the role and collected signals. */
  lemma ScorerCalledIff<J>(req: Request, world: World<J>)
    ensures (exists p :: ScorerRequest(p) in Handle(req, world).calls) <==> ReachesScorer(req, world)
    ensures ReachesScorer(req, world) ==> Handle(req, world).calls == [
      GitHubLookups(RepoUrl.Parse(req.body.repoUrl.value).value),
      ScorerRequest(Prompt.Render(req.body.role.value, Signals.Collect(world.github).value))]
  {
    if ReachesScorer(req, world) {
      HandleAtScorer(req, world);
      var p := Prompt.Render(req.body.role.value, Signals.Collect(world.github).value);
      assert ScorerRequest(p) in Handle(req, world).calls;
    } else {
      HandleBeforeScorer(req, world, world.scorer);
    }
  }

  /** Without a configured key the handler fails after the lookups and never
      calls the scorer. */
  lemma MissingKeySkipsScorer<J>(req: Request, world: World<J>)
    requires Validated(req)
    ensures RepoUrl.Parse(req.body.repoUrl.value).Success? && Signals.Collect(world.github).Success?
            && !Truthy(world.apiKey) ==>
      Handle(req, world) == Outcome(Response(500, ErrorBody(MissingKeyMessage)),
                                    [GitHubLookups(RepoUrl.Parse(req.body.repoUrl.value).value)])
  {
  }

  /** Rate limiting and exhausted credits are reported with their own status
      exactly when the scorer answered with it; no other path yields them. */
  lemma ScorerStatusesSurface<J>(req: Request, world: World<J>)
    ensures Handle(req, world).response.status == 429 <==>
      ReachesScorer(req, world) && world.scorer.ScorerNotOk? && world.scorer.status == 429
    ensures Handle(req, world).response.status == 402 <==>
      ReachesScorer(req, world) && world.scorer.ScorerNotOk? && world.scorer.status == 402
    ensures Handle(req, world).response.status == 429 ==>
      Handle(req, world).response.body == ErrorBody(RateLimitMessage)
    ensures Handle(req, world).response.status == 402 ==>
      Handle(req, world).response.body == ErrorBody(CreditsMessage)
  {
    if ReachesScorer(req, world) {
      HandleAtScorer(req, world);
    } else {
      HandleBeforeScorer(req, world, world.scorer);
    }
  }

  /** A success returns the parsed evaluation exactly as `JSON.parse`
      produced it: no score, tier or badge is recomputed. */
  lemma EvaluationPassedThrough<J>(req: Request, world: World<J>)
    requires req.Submit?
    ensures Handle(req, world).response.status == 200 ==>
      && ReachesScorer(req, world)
      && world.scorer.ScorerAnswered? && Truthy(world.scorer.content)
      && var parsed := world.parse(ResponseSpan.SelectSpan(world.scorer.content.value));
      && parsed.Some?
      && Handle(req, world).response.body.SuccessBody?
      && Handle(req, world).response.body.evaluation == parsed.value
  {
  }

  /** A reply whose JSON object is wrapped in a ```` ```json ```` fence is
      handled exactly like the bare object. */
  lemma FencedReplyLikeBare<J>(req: Request, world: World<J>, body: string)
    requires ResponseSpan.PlainObject(body)
    ensures Handle(req, world.(scorer := ScorerAnswered(Some(ResponseSpan.Fenced(body)))))
         == Handle(req, world.(scorer := ScorerAnswered(Some(body))))
  {
    ResponseSpan.FencedRoundTrip(body);
    var w1 := world.(scorer := ScorerAnswered(Some(ResponseSpan.Fenced(body))));
    var w2 := world.(scorer := ScorerAnswered(Some(body)));
    if ReachesScorer(req, world) {
      assert ReachesScorer(req, w1) && ReachesScorer(req, w2);
      HandleAtScorer(req, w1);
      HandleAtScorer(req, w2);
      var signals := Signals.Collect(world.github).value;
      var calls := Handle(req, w1).calls;
      ScoreSameSpan(signals, w1, w2, calls);
    } else {
      HandleBeforeScorer(req, world, w1.scorer);
      HandleBeforeScorer(req, world, w2.scorer);
    }
  }

  /** Two scorer replies whose selected spans agree are scored alike. */
  lemma ScoreSameSpan<J>(signals: Signals.RepoSignals, w1: World<J>, w2: World<J>, calls: seq<Call>)
    requires w1.parse == w2.parse
    requires w1.scorer.ScorerAnswered? && w2.scorer.ScorerAnswered?
    requires Truthy(w1.scorer.content) && Truthy(w2.scorer.content)
    requires ResponseSpan.SelectSpan(w1.scorer.content.value) == ResponseSpan.SelectSpan(w2.scorer.content.value)
    ensures Score(signals, w1, calls) == Score(signals, w2, calls)
  {
  }
}

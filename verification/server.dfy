/** ContinuousIntegrationServer.handle, without Jetty: which route a
    request takes and what status and body it answers with. The request
    body's JSON tree is given (None when it is not JSON); the pages for
    the history are described by what they show, not by their HTML. */
module Server {
  import opened Wrappers
  import opened Strings
  import opened Json
  import opened GitHub
  import opened Builds
  import opened BuildHistory

  datatype Route =
    | Webhook
    | BuildList
    | BuildPage(id: string)
    | Placeholder

  const BuildsPrefix := "/builds/"

  /** The branch of handle a request takes. The methods are compared
      ignoring case, and the exact "/builds" test comes before the
      "/builds/" prefix test. */
  function RouteOf(target: string, verb: string): (r: Route)
    ensures r == Webhook <==> target == "/webhook" && EqualsIgnoreCase(verb, "POST")
    ensures r == BuildList <==> target == "/builds" && EqualsIgnoreCase(verb, "GET")
    ensures r.BuildPage? <==> StartsWith(target, BuildsPrefix) && EqualsIgnoreCase(verb, "GET")
    ensures r.BuildPage? ==> BuildsPrefix + r.id == target
  {
    if target == "/webhook" && EqualsIgnoreCase("POST", verb) then Webhook
    else if target == "/builds" && EqualsIgnoreCase("GET", verb) then BuildList
    else if StartsWith(target, BuildsPrefix) && EqualsIgnoreCase("GET", verb) then
      assert target[..|BuildsPrefix|] == BuildsPrefix;
      BuildPage(target[|BuildsPrefix|..])
    else Placeholder
  }

  datatype Body =
    | Text(text: string)
    | Listing(entries: seq<Build>)
    | Page(build: Build)

  /** A response, or a runtime exception that leaves handle (Jetty then
      answers on its own). */
  datatype Response =
    | Respond(status: int, body: Body)
    | Escaped

  const OK := 200
  const BadRequest := 400
  const NotFound := 404

  /** handle. The webhook branch parses the payload and only prints the
      push; it ends by reading the head commit's message, which throws when
      the push has none. No branch adds to the history. */
  function Handle(target: string, verb: string, payload: Option<Json>, history: seq<Build>): (r: Response)
    ensures RouteOf(target, verb) == Webhook ==>
      (Parse(payload).Failure? <==> r == Respond(BadRequest, Text("Invalid payload: " + InvalidMessage)))
    ensures RouteOf(target, verb) == Webhook && Parse(payload).Success? ==>
      (r.Escaped? <==> Parse(payload).value.headCommit.None?)
    ensures r.Respond? && r.status == NotFound ==> RouteOf(target, verb).BuildPage?
    ensures RouteOf(target, verb).Placeholder? ==> r == Respond(OK, Text("CI job done (placeholder)"))
  {
    match RouteOf(target, verb)
    case Webhook =>
      (match Parse(payload)
       case Failure(e) => Respond(BadRequest, Text("Invalid payload: " + e.message))
       case Success(push) =>
         if push.headCommit.None? then Escaped
         else Respond(OK, Text("Push received: " + push.after)))
    case BuildList => Respond(OK, Listing(history))
    case BuildPage(id) =>
      (match FindById(history, id)
       case Found(b) => Respond(OK, Page(b))
       case Absent => Respond(NotFound, Text("Build not found"))
       case NullIdFault => Escaped)
    case Placeholder => Respond(OK, Text("CI job done (placeholder)"))
  }

  /* ---------------------------------------------------------------
     Properties
     --------------------------------------------------------------- */

  /** An accepted push with a head commit is acknowledged with its after
      SHA. */
  lemma AcceptedPush(verb: string, payload: Option<Json>, history: seq<Build>)
    requires EqualsIgnoreCase(verb, "POST")
    requires Parse(payload).Success? && Parse(payload).value.headCommit.Some?
    ensures Handle("/webhook", verb, payload, history)
         == Respond(OK, Text("Push received: " + Parse(payload).value.after))
  {
  }

  /** The method's case does not matter: "post" reaches the webhook. */
  lemma LowerCasePost()
    ensures RouteOf("/webhook", "post") == Webhook
  {
    assert EqualsIgnoreCase("POST", "post");
  }

  /** A GET of the webhook is not the webhook: it gets the placeholder. */
  lemma GetWebhookIsPlaceholder(payload: Option<Json>, history: seq<Build>)
    ensures Handle("/webhook", "GET", payload, history) == Respond(OK, Text("CI job done (placeholder)"))
  {
    assert !StartsWith("/webhook", BuildsPrefix) by {
      assert "/webhook"[1] != BuildsPrefix[1];
    }
  }

  /** The history page lists every stored build, in store order. */
  lemma ListingShowsHistory(verb: string, payload: Option<Json>, history: seq<Build>)
    requires EqualsIgnoreCase(verb, "GET")
    ensures Handle("/builds", verb, payload, history) == Respond(OK, Listing(history))
  {
  }

  /** A build's page answers with that build exactly when the lookup finds
      it, and 404 exactly when no stored build has the id. */
  lemma BuildPageStatus(id: string, verb: string, payload: Option<Json>, history: seq<Build>)
    requires EqualsIgnoreCase(verb, "GET")
    ensures var r := Handle(BuildsPrefix + id, verb, payload, history);
      && (r == Respond(NotFound, Text("Build not found")) <==> PassesAll(history, id))
      && (forall b :: r == Respond(OK, Page(b)) <==> FindById(history, id) == Found(b))
  {
    var target := BuildsPrefix + id;
    assert StartsWith(target, BuildsPrefix);
    assert target != "/builds" by {
      assert |target| != |"/builds"|;
    }
    assert target != "/webhook" by {
      assert target[1] != "/webhook"[1];
    }
    assert target[|BuildsPrefix|..] == id;
  }

  /** A build added under a new id (and none stored with a null id) is
      served at its page afterwards. */
  lemma AddedBuildIsServed(s: Store, b: Build, fault: Option<Disk>, id: string, verb: string, payload: Option<Json>)
    requires EqualsIgnoreCase(verb, "GET")
    requires b.id == Some(id) && PassesAll(s.builds, id)
    ensures Handle(BuildsPrefix + id, verb, payload, Add(s, b, fault).builds) == Respond(OK, Page(b))
  {
    FindAddedBuild(s, b, fault, id);
    BuildPageStatus(id, verb, payload, Add(s, b, fault).builds);
  }
}

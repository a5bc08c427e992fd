/** The sell endpoint (app/controllers/sell_controller.js): validates the
    request, looks the inscription up, and forwards the sale to the
    signing-agent actor that owns that inscription, passing its reply through.
    The inscription lookup and the actor are oracles; every call to them is
    recorded in a trace. */
module SellGateway {
  import opened Wrappers
  import opened Json
  import opened Http

  const MissingPsbtMessage := "Missing signedPsbt"
  const UnavailableMessage := "Inscription is not available"
  const SellUrl := "https://signing-agent/sell"

  /** An inscription as the collection's lookup returns it. */
  datatype Inscription = Inscription(id: string)

  /** The actor's HTTP reply: its status and its parsed body (`None` when it does not parse). */
  datatype ActorReply = ActorReply(status: int, body: Option<Json>)

  /** A collaborator call made while handling one request. */
  datatype Touch =
    | LookedUpInscription(inscriptionId: Option<Json>)
    | ContactedActor(key: string, url: string, httpMethod: string, payload: Json)

  /** The actor name for an inscription of a collection. */
  function ActorKey(slug: string, inscriptionId: string): (key: string)
    ensures |key| == |slug| + 1 + |inscriptionId|
    ensures key[..|slug|] == slug && key[|slug|] == ':' && key[|slug| + 1..] == inscriptionId
  {
    slug + ":" + inscriptionId
  }

  /** For slugs without a colon, the key determines both the collection and the
      inscription, so distinct items never share an actor. */
  lemma ActorKeyInjective(slug1: string, id1: string, slug2: string, id2: string)
    requires ':' !in slug1 && ':' !in slug2
    requires ActorKey(slug1, id1) == ActorKey(slug2, id2)
    ensures slug1 == slug2 && id1 == id2
  {
  }

  /** The body forwarded to the actor: the route's slug, the id of the inscription
      that was loaded, and the caller's signed PSBT. */
  function SellPayload(slug: string, inscription: Inscription, signedPsbt: Json): (payload: Json)
    ensures payload.JObject? && payload.fields.Keys == {"collectionSlug", "inscriptionId", "signedPsbt"}
    ensures Get(payload, "collectionSlug") == Some(JString(slug))
    ensures Get(payload, "inscriptionId") == Some(JString(inscription.id))
    ensures Get(payload, "signedPsbt") == Some(signedPsbt)
  {
    JObject(map["collectionSlug" := JString(slug), "inscriptionId" := JString(inscription.id),
                "signedPsbt" := signedPsbt])
  }

  function ErrorBody(message: string): Json {
    JObject(map["error" := JString(message)])
  }

  /** The result of one sell request together with the calls it made. The
      gateway renders no page, so its view type is the unit type. */
  datatype Handled = Handled(outcome: Outcome<()>, trace: seq<Touch>)

  /** `executeSellController`. `body` is the parsed request body (`None` when it
      does not parse, read as `{}`). `lookup` answers `loadInscription` for the
      body's `inscriptionId`: `Failure` when it rejects, `Success(None)` when
      nothing is found. `actor` answers a POST to the named actor: `None` when
      the fetch rejects. A rejection propagates out of the handler. */
  function ExecuteSell(slug: string, body: Option<Json>,
                       lookup: Option<Json> -> Result<Option<Inscription>, string>,
                       actor: (string, Json) -> Option<ActorReply>): (h: Handled)
    // a JSON `null` body has no properties to read: the handler throws
    ensures ParsedOrEmpty(body) == JNull ==> h == Handled(Threw, [])
    // no signed PSBT: 400 before anything else is consulted
    ensures ParsedOrEmpty(body) != JNull && !Truthy(Get(ParsedOrEmpty(body), "signedPsbt")) ==>
              h == Handled(Returned(Response(400, JsonBody(ErrorBody(MissingPsbtMessage)), None)), [])
    // a request with a signed PSBT is looked up, exactly once and first
    ensures ParsedOrEmpty(body) != JNull && Truthy(Get(ParsedOrEmpty(body), "signedPsbt")) ==>
              |h.trace| >= 1 && h.trace[0] == LookedUpInscription(Get(ParsedOrEmpty(body), "inscriptionId"))
    ensures |h.trace| > 0 ==> ParsedOrEmpty(body) != JNull && Truthy(Get(ParsedOrEmpty(body), "signedPsbt"))
    // the lookup rejects: the handler throws and no actor is contacted
    ensures |h.trace| > 0 && lookup(Get(ParsedOrEmpty(body), "inscriptionId")).Failure? ==>
              h == Handled(Threw, [LookedUpInscription(Get(ParsedOrEmpty(body), "inscriptionId"))])
    // nothing found: 404 and no actor contacted
    ensures |h.trace| > 0 && lookup(Get(ParsedOrEmpty(body), "inscriptionId")) == Success(None) ==>
              h == Handled(Returned(Response(404, JsonBody(ErrorBody(UnavailableMessage)), None)),
                           [LookedUpInscription(Get(ParsedOrEmpty(body), "inscriptionId"))])
    // found: exactly one POST, to the actor named after the loaded inscription
    ensures |h.trace| <= 2
    ensures |h.trace| > 0 ==>
              var found := lookup(Get(ParsedOrEmpty(body), "inscriptionId"));
              (|h.trace| == 2 <==> found.Success? && found.value.Some?)
    ensures |h.trace| == 2 ==>
              var found := lookup(Get(ParsedOrEmpty(body), "inscriptionId")).value.value;
              h.trace[1] == ContactedActor(ActorKey(slug, found.id), SellUrl, "POST",
                                           SellPayload(slug, found, Get(ParsedOrEmpty(body), "signedPsbt").value))
    // the actor's reply is passed through (same status, same body or `{}`); a rejected fetch throws
    ensures |h.trace| == 2 ==>
              var reply := actor(h.trace[1].key, h.trace[1].payload);
              h.outcome == (if reply.None? then Threw else JsonReply(ParsedOrEmpty(reply.value.body), reply.value.status))
  {
    var data := ParsedOrEmpty(body);
    if data == JNull then Handled(Threw, [])
    else
      var signedPsbt := Get(data, "signedPsbt");
      if !Truthy(signedPsbt) then
        Handled(JsonReply(ErrorBody(MissingPsbtMessage), 400), [])
      else
        var inscriptionId := Get(data, "inscriptionId");
        var lookedUp := LookedUpInscription(inscriptionId);
        match lookup(inscriptionId)
        case Failure(_) => Handled(Threw, [lookedUp])
        case Success(None) => Handled(JsonReply(ErrorBody(UnavailableMessage), 404), [lookedUp])
        case Success(Some(inscription)) =>
          var key := ActorKey(slug, inscription.id);
          var payload := SellPayload(slug, inscription, signedPsbt.value);
          var touches := [lookedUp, ContactedActor(key, SellUrl, "POST", payload)];
          match actor(key, payload)
          case None => Handled(Threw, touches)
          case Some(reply) => Handled(JsonReply(ParsedOrEmpty(reply.body), reply.status), touches)
  }

  /** A request body without `signedPsbt` is answered 400 without any lookup or actor call. */
  lemma MissingPsbtExample(slug: string, lookup: Option<Json> -> Result<Option<Inscription>, string>,
                           actor: (string, Json) -> Option<ActorReply>)
    ensures var h := ExecuteSell(slug, Some(JObject(map["inscriptionId" := JString("abc")])), lookup, actor);
            Deliver(h.outcome).status == 400 && h.trace == []
  {
  }

  /** An unparseable request body reads as `{}`, so it too is a 400. */
  lemma UnparseableBodyIsMissingPsbt(slug: string, lookup: Option<Json> -> Result<Option<Inscription>, string>,
                                     actor: (string, Json) -> Option<ActorReply>)
    ensures ExecuteSell(slug, None, lookup, actor)
         == Handled(Returned(Response(400, JsonBody(ErrorBody(MissingPsbtMessage)), None)), [])
  {
  }

  /** The actor is chosen by the inscription the store returned, not by the id the
      caller sent: two requests naming different ids that resolve to the same
      inscription reach the same actor. */
  lemma {:induction false} KeyFollowsLoadedInscription(slug: string, psbt: Json, id1: Json, id2: Json,
                                                       lookup: Option<Json> -> Result<Option<Inscription>, string>,
                                                       actor: (string, Json) -> Option<ActorReply>)
    requires Truthy(Some(psbt))
    requires lookup(Some(id1)).Success? && lookup(Some(id1)).value.Some? && lookup(Some(id1)) == lookup(Some(id2))
    ensures var b1 := JObject(map["signedPsbt" := psbt, "inscriptionId" := id1]);
            var b2 := JObject(map["signedPsbt" := psbt, "inscriptionId" := id2]);
            var h1 := ExecuteSell(slug, Some(b1), lookup, actor);
            var h2 := ExecuteSell(slug, Some(b2), lookup, actor);
            |h1.trace| == 2 && h1.trace[1] == h2.trace[1] && h1.outcome == h2.outcome
  {
    var b1 := JObject(map["signedPsbt" := psbt, "inscriptionId" := id1]);
    var b2 := JObject(map["signedPsbt" := psbt, "inscriptionId" := id2]);
    assert Get(b1, "signedPsbt") == Some(psbt) && Get(b2, "signedPsbt") == Some(psbt);
    assert Get(b1, "inscriptionId") == Some(id1) && Get(b2, "inscriptionId") == Some(id2);
  }

  /** Whatever goes wrong after validation (a rejected lookup, a rejected actor
      fetch, or an actor status `new Response` refuses), the caller sees a 500. */
  lemma {:induction false} FailuresPastValidationAre500(slug: string, body: Option<Json>,
                                                        lookup: Option<Json> -> Result<Option<Inscription>, string>,
                                                        actor: (string, Json) -> Option<ActorReply>)
    requires ParsedOrEmpty(body) != JNull && Truthy(Get(ParsedOrEmpty(body), "signedPsbt"))
    ensures var h := ExecuteSell(slug, body, lookup, actor);
            var found := lookup(Get(ParsedOrEmpty(body), "inscriptionId"));
            && (found.Failure? ==> Deliver(h.outcome).status == 500)
            && (found.Success? && found.value.Some? ==>
                  var reply := actor(h.trace[1].key, h.trace[1].payload);
                  (reply.None? || !ConstructibleStatus(reply.value.status) ==> Deliver(h.outcome).status == 500)
                  && (reply.Some? && ConstructibleStatus(reply.value.status) ==>
                        Deliver(h.outcome).status == reply.value.status))
  {
    var h := ExecuteSell(slug, body, lookup, actor);
    assert |h.trace| >= 1;
  }
}

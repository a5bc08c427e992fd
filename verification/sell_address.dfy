/** The seller's taproot address, fetched once from the signing agent and then
    memoised in two module-level slots (app/utils/sell_address.js). The slots are
    an explicit state record; a caller arriving, a fetch settling and a waiting
    caller resuming are separate transitions, so any interleaving of callers can
    be replayed. */
module SellAddress {
  import opened Wrappers
  import opened Json

  /** Name of the signing-agent actor that answers address requests. */
  const AddressActorName := "sell-address"
  const AddressUrl := "https://signing-agent/sell/address"
  const FetchFailedMessage := "Unable to fetch sell address"
  const InvalidResponseMessage := "Invalid sell address response"

  /** A request sent to a named signing-agent actor. */
  datatype ActorFetch = ActorFetch(actorName: string, url: string, httpMethod: string)

  /** The one request every address load sends. */
  const AddressRequest := ActorFetch(AddressActorName, AddressUrl, "GET")

  /** The decision on the signing agent's reply: `ok` is the HTTP success flag and
      `body` the parsed payload (`None` when it does not parse, read as `{}`). */
  function CheckAddressReply(ok: bool, body: Option<Json>): (r: Result<string, string>)
    ensures r.Success? <==>
              ok && AsString(Get(ParsedOrEmpty(body), "taprootAddress")).Some?
                 && AsString(Get(ParsedOrEmpty(body), "taprootAddress")).value != ""
    ensures r.Success? ==> r.value != "" && Get(ParsedOrEmpty(body), "taprootAddress") == Some(JString(r.value))
    ensures !ok && !AsString(Get(ParsedOrEmpty(body), "error")).Some? ==> r == Failure(FetchFailedMessage)
    ensures !ok && AsString(Get(ParsedOrEmpty(body), "error")).Some? ==>
              r == Failure(AsString(Get(ParsedOrEmpty(body), "error")).value)
    ensures ok && r.Failure? ==> r.error == InvalidResponseMessage
  {
    var data := ParsedOrEmpty(body);
    if !ok then
      var message := AsString(Get(data, "error"));
      Failure(if message.Some? then message.value else FetchFailedMessage)
    else
      var address := AsString(Get(data, "taprootAddress"));
      if address.None? || address.value == "" then Failure(InvalidResponseMessage)
      else Success(address.value)
  }

  /** A reply that does not parse is a failure whatever its status. */
  lemma UnparseableReplyFails(ok: bool)
    ensures CheckAddressReply(ok, None)
         == Failure(if ok then InvalidResponseMessage else FetchFailedMessage)
  {
  }

  /** How the signing agent answers a load: an HTTP reply (its success flag and
      parsed body), or a rejected fetch carrying its error message. */
  datatype AgentAnswer = Replied(ok: bool, body: Option<Json>) | Unreachable(message: string)

  /** The verdict a load reaches. A rejected fetch fails the load with its own
      error; a reply is checked as above. */
  function LoadVerdict(answer: AgentAnswer): (r: Result<string, string>)
    ensures answer.Unreachable? ==> r == Failure(answer.message)
    ensures answer.Replied? ==> r == CheckAddressReply(answer.ok, answer.body)
    ensures r.Success? ==> answer.Replied? && answer.ok && r.value != ""
  {
    match answer
    case Unreachable(message) => Failure(message)
    case Replied(ok, body) => CheckAddressReply(ok, body)
  }

  datatype LoadStatus = Pending | Settled(outcome: Result<string, string>)

  /** One started address load: what it asked for and how far it has got. */
  datatype Load = Load(request: ActorFetch, status: LoadStatus)

  /** The module state. `cached` and `inFlight` are the source's two slots (the
      in-flight slot holds the index of a load); `loads` lists every load ever
      started; `waiters` maps each suspended caller to the load it awaits. */
  datatype Memo = Memo(cached: Option<string>, inFlight: Option<nat>, loads: seq<Load>, waiters: map<nat, nat>)

  /** What an arriving caller gets: the memoised address at once, or a load to await. */
  datatype Arrival = Immediate(address: string) | Awaiting(load: nat)

  const Initial := Memo(None, None, [], map[])

  /** The `if (cachedTaprootAddress)` test. */
  predicate HasAddress(m: Memo) {
    m.cached.Some? && m.cached.value != ""
  }

  /** The facts every reachable state keeps: a memoised address is a non-empty
      string, slot and waiters point at started loads, every load asked the
      'sell-address' actor, and every successful load produced a non-empty string. */
  predicate Valid(m: Memo) {
    && (m.cached.Some? ==> m.cached.value != "")
    && (m.inFlight.Some? ==> m.inFlight.value < |m.loads|)
    && (forall c :: c in m.waiters ==> m.waiters[c] < |m.loads|)
    && (forall i :: 0 <= i < |m.loads| ==> m.loads[i].request == AddressRequest)
    && (forall i :: 0 <= i < |m.loads| && m.loads[i].status.Settled? && m.loads[i].status.outcome.Success? ==>
          m.loads[i].status.outcome.value != "")
  }

  /** A caller enters `getSellerTaprootAddress`: a memoised address is returned
      at once; otherwise the caller joins the load in the slot, starting one
      first if the slot is empty. */
  function Arrive(m: Memo, caller: nat): (r: (Memo, Arrival))
    requires Valid(m) && caller !in m.waiters
    ensures Valid(r.0)
    ensures r.0.cached == m.cached
    ensures HasAddress(m) ==> r == (m, Immediate(m.cached.value))
    ensures !HasAddress(m) && m.inFlight.Some? ==>
              r.1 == Awaiting(m.inFlight.value) && r.0.loads == m.loads && r.0.inFlight == m.inFlight
    ensures !HasAddress(m) && m.inFlight.None? ==>
              && r.1 == Awaiting(|m.loads|)
              && r.0.loads == m.loads + [Load(AddressRequest, Pending)]
              && r.0.inFlight == Some(|m.loads|)
    ensures r.1.Awaiting? ==> r.0.waiters == m.waiters[caller := r.1.load]
  {
    if HasAddress(m) then (m, Immediate(m.cached.value))
    else
      var started := if m.inFlight.Some? then m
                     else m.(inFlight := Some(|m.loads|), loads := m.loads + [Load(AddressRequest, Pending)]);
      var id := started.inFlight.value;
      (started.(waiters := started.waiters[caller := id]), Awaiting(id))
  }

  /** The signing agent answers load `id`, or its fetch rejects; the answer is
      checked once and the verdict is shared by everyone awaiting that load. */
  function Settle(m: Memo, id: nat, answer: AgentAnswer): (m': Memo)
    requires Valid(m) && id < |m.loads| && m.loads[id].status.Pending?
    ensures Valid(m')
    ensures m'.loads == m.loads[id := Load(AddressRequest, Settled(LoadVerdict(answer)))]
    ensures m'.cached == m.cached && m'.inFlight == m.inFlight && m'.waiters == m.waiters
  {
    m.(loads := m.loads[id := Load(AddressRequest, Settled(LoadVerdict(answer)))])
  }

  /** A suspended caller resumes once its load has settled: on success it
      memoises and returns the address, on failure it throws the load's error;
      either way its `finally` empties the in-flight slot. */
  function Resume(m: Memo, caller: nat): (r: (Memo, Result<string, string>))
    requires Valid(m) && caller in m.waiters && m.loads[m.waiters[caller]].status.Settled?
    ensures Valid(r.0)
    ensures r.1 == m.loads[m.waiters[caller]].status.outcome
    ensures r.0.inFlight.None?
    ensures r.0.loads == m.loads && r.0.waiters == m.waiters - {caller}
    ensures r.1.Success? ==> r.1.value != "" && r.0.cached == Some(r.1.value)
    ensures r.1.Failure? ==> r.0.cached == m.cached
  {
    var outcome := m.loads[m.waiters[caller]].status.outcome;
    var cached := if outcome.Success? then Some(outcome.value) else m.cached;
    (m.(cached := cached, inFlight := None, waiters := m.waiters - {caller}), outcome)
  }

  /** Two callers awaiting the same load get the same answer, whichever resumes first. */
  lemma SameLoadSameAnswer(m: Memo, c1: nat, c2: nat)
    requires Valid(m) && c1 != c2 && c1 in m.waiters && c2 in m.waiters
    requires m.waiters[c1] == m.waiters[c2] && m.loads[m.waiters[c1]].status.Settled?
    ensures var (m1, r1) := Resume(m, c1);
            Resume(m1, c2).1 == r1
  {
  }

  /** After a failed load, a caller arriving at an address-less state starts a
      fresh load rather than reusing the failed one. */
  lemma FailureRetriesFresh(m: Memo, waiter: nat, caller: nat)
    requires Valid(m) && !HasAddress(m) && waiter in m.waiters && caller !in m.waiters
    requires m.loads[m.waiters[waiter]].status.Settled? && m.loads[m.waiters[waiter]].status.outcome.Failure?
    ensures var (m1, _) := Resume(m, waiter);
            caller !in m1.waiters &&
            var (m2, arrival) := Arrive(m1, caller);
            arrival == Awaiting(|m.loads|) && |m2.loads| == |m.loads| + 1
  {
  }

  /** A single caller from the start: one load, and the caller receives exactly
      the verdict on the agent's answer. */
  lemma LoneCaller(caller: nat, answer: AgentAnswer)
    ensures var (m1, a) := Arrive(Initial, caller);
            a == Awaiting(0) &&
            var m2 := Settle(m1, 0, answer);
            var (m3, r) := Resume(m2, caller);
            r == LoadVerdict(answer) && |m3.loads| == 1 &&
            (r.Success? <==> HasAddress(m3))
  {
  }

  /** One event of the interleaving; an event that is not enabled in a state is skipped. */
  datatype Event = CallerArrives(caller: nat) | LoadSettles(id: nat, answer: AgentAnswer) | CallerResumes(caller: nat)

  function Step(m: Memo, e: Event): (m': Memo)
    requires Valid(m)
    ensures Valid(m')
    ensures HasAddress(m) ==> |m'.loads| == |m.loads| && HasAddress(m')
  {
    match e
    case CallerArrives(c) =>
      if c !in m.waiters then Arrive(m, c).0 else m
    case LoadSettles(id, answer) =>
      if id < |m.loads| && m.loads[id].status.Pending? then Settle(m, id, answer) else m
    case CallerResumes(c) =>
      if c in m.waiters && m.loads[m.waiters[c]].status.Settled? then Resume(m, c).0 else m
  }

  function Run(m: Memo, events: seq<Event>): Memo
    requires Valid(m)
    decreases |events|
  {
    if |events| == 0 then m else Run(Step(m, events[0]), events[1..])
  }

  /** Every state reachable by any interleaving satisfies `Valid`: in particular
      every load ever started asked the 'sell-address' actor, and a memoised
      address is a non-empty string. */
  lemma {:induction false} RunKeepsValid(m: Memo, events: seq<Event>)
    requires Valid(m)
    ensures Valid(Run(m, events))
    decreases |events|
  {
    if |events| > 0 {
      RunKeepsValid(Step(m, events[0]), events[1..]);
    }
  }

  /** Once an address is memoised, an address stays memoised and no further load
      is ever started. The value itself may change in interleavings JavaScript
      does not produce: arrivals between two resumptions of one failed load can
      start two loads at once, and the later of two successes wins. */
  lemma {:induction false} MemoisedAddressIsFinal(m: Memo, events: seq<Event>)
    requires Valid(m) && HasAddress(m)
    ensures HasAddress(Run(m, events)) && |Run(m, events).loads| == |m.loads|
    decreases |events|
  {
    if |events| > 0 {
      MemoisedAddressIsFinal(Step(m, events[0]), events[1..]);
    }
  }
}

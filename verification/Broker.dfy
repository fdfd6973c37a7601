/** The request broker: pending ids and stored responses shared by the calling threads and the socket callback. */
module Brokers {
  /** A received payload, parsed. A payload whose parsing or typed access throws is Malformed; body stands for the
      rest. */
  datatype Message =
    | Malformed
    | Message(id: string, isError: bool, hasResult: bool, apiKey: string, authorizedSince: string, body: string)

  /** pending_requests_, stored_responses_ and loginRequestId_ as values. */
  datatype Registry = Registry(pending: set<string>, stored: map<string, Message>, loginId: string)

  function Register(r: Registry, id: string): Registry {
    r.(pending := r.pending + {id})
  }

  /** The callback stores every message with an id, except a failed or incomplete answer to the login request, which
      throws. */
  predicate Accepts(r: Registry, m: Message) {
    && m.Message? && m.id != ""
    && (m.id == r.loginId ==> !m.isError && (m.hasResult ==> m.apiKey != "" && m.authorizedSince != ""))
  }

  function Receive(r: Registry, m: Message): Registry {
    if Accepts(r, m) then r.(stored := r.stored[m.id := m], pending := r.pending - {m.id}) else r
  }

  /** What getResponseForId does at once: throw, block on the condition variable, or return. */
  datatype Lookup = NotFound | Blocks | Found(response: Message)

  function Look(r: Registry, id: string): Lookup {
    if id !in r.pending then NotFound
    else if id in r.stored then Found(r.stored[id]) else Blocks
  }

  /** The check widened to answered requests. */
  function LookWidened(r: Registry, id: string): Lookup {
    if id !in r.pending && id !in r.stored then NotFound
    else if id in r.stored then Found(r.stored[id]) else Blocks
  }

  class Broker {
    var pendingRequests: set<string>
    var storedResponses: map<string, Message>
    var loginRequestId: string
    /** The bodies handed to the socket, in order. */
    var written: seq<string>

    ghost function State(): Registry
      reads this
    {
      Registry(pendingRequests, storedResponses, loginRequestId)
    }

    constructor ()
      ensures State() == Registry({}, map[], "") && written == []
    {
      pendingRequests, storedResponses, loginRequestId, written := {}, map[], "", [];
    }

    method SendRequest(requestId: string, requestBody: string) returns (r: string)
      modifies this
      ensures r == requestId && State() == Register(old(State()), requestId) && written == old(written) + [requestBody]
    {
      pendingRequests := pendingRequests + {requestId};
      written := written + [requestBody];
      r := requestId;
    }

    /** The critical section of getResponseForId up to its wait. */
    method GetResponseForId(id: string) returns (r: Lookup)
      ensures r == Look(State(), id)
    {
      if id !in pendingRequests {
        return NotFound;
      }
      r := Resume(id);
    }

    /** A wake-up of the wait: its predicate, and the result when it holds. */
    method Resume(id: string) returns (r: Lookup)
      ensures r == if id in storedResponses then Found(storedResponses[id]) else Blocks
    {
      if id !in storedResponses {
        return Blocks;
      }
      r := Found(storedResponses[id]);
    }

    method OnMessage(m: Message)
      modifies this
      ensures State() == Receive(old(State()), m) && written == old(written)
    {
      if m.Malformed? || m.id == "" {
        return;
      }
      if m.id == loginRequestId {
        if m.isError {
          return;
        }
        if m.hasResult && (m.apiKey == "" || m.authorizedSince == "") {
          return;
        }
      }
      storedResponses := storedResponses[m.id := m];
      pendingRequests := pendingRequests - {m.id};
    }
  }

  // ----- All interleavings -----

  /** A caller of getResponseForId. A failed call remembers whether the request had been registered. */
  datatype Client = Waiting(id: string) | Failed(id: string, registered: bool) | Returned(id: string, response: Message)

  /** The broker, and what has happened: the ids registered, the requests written, the messages accepted, the callers,
      and how many messages had been accepted when the login id was set. */
  datatype World = World(registry: Registry, registered: set<string>, written: set<string>, accepted: seq<Message>,
                         clients: map<nat, Client>, loginMark: nat)

  const START := World(Registry({}, map[], ""), {}, {}, [], map[], 0)

  /** One step per critical section, and one for each socket write, each delivery and the assignment of the login id.
      The program has no SetLogin step yet: building the login request throws before anything is sent. */
  datatype Event =
    | RegisterRequest(id: string)
    | WriteRequest(id: string)
    | SetLogin(id: string)
    | Deliver(m: Message)
    | Ask(client: nat, id: string)
    | Wake(client: nat)

  /** Request ids are fresh; the exchange answers only written requests, and not again once an answer was accepted. */
  ghost predicate Enabled(w: World, e: Event) {
    match e
    case RegisterRequest(id) => id != "" && id !in w.registered
    case WriteRequest(id) => id in w.registered && id !in w.written
    case SetLogin(id) => id in w.registered && w.registry.loginId == ""
    case Deliver(m) => m.Message? && m.id != "" ==> m.id in w.written && m.id !in AnsweredIds(w)
    case Ask(client, _) => client in w.clients ==> !w.clients[client].Waiting?
    case Wake(client) => client in w.clients && w.clients[client].Waiting? && w.clients[client].id in w.registry.stored
  }

  ghost function AnsweredIds(w: World): set<string> {
    set m | m in w.accepted && m.Message? :: m.id
  }

  /** The caller after its first look, with the check as written or widened. */
  function AfterAsk(w: World, id: string, widened: bool): Client {
    match if widened then LookWidened(w.registry, id) else Look(w.registry, id)
    case NotFound => Failed(id, id in w.registered)
    case Blocks => Waiting(id)
    case Found(m) => Returned(id, m)
  }

  function Apply(w: World, e: Event, widened: bool): World {
    match e
    case RegisterRequest(id) => w.(registry := Register(w.registry, id), registered := w.registered + {id})
    case WriteRequest(id) => w.(written := w.written + {id})
    case SetLogin(id) => w.(registry := w.registry.(loginId := id), loginMark := |w.accepted|)
    case Deliver(m) =>
      w.(registry := Receive(w.registry, m),
         accepted := if Accepts(w.registry, m) then w.accepted + [m] else w.accepted)
    case Ask(client, id) => w.(clients := w.clients[client := AfterAsk(w, id, widened)])
    case Wake(client) =>
      if client in w.clients && w.clients[client].id in w.registry.stored
      then w.(clients := w.clients[client := Returned(w.clients[client].id, w.registry.stored[w.clients[client].id])])
      else w
  }

  function Final(w: World, events: seq<Event>, widened: bool): World {
    if events == [] then w else Apply(Final(w, events[..|events|-1], widened), events[|events|-1], widened)
  }

  /** Every event of the sequence is enabled when it happens. */
  ghost predicate CanRun(w: World, events: seq<Event>, widened: bool) {
    events != [] ==>
      CanRun(w, events[..|events|-1], widened) && Enabled(Final(w, events[..|events|-1], widened), events[|events|-1])
  }

  /** Exactly the unanswered requests are pending; exactly the answered ones are stored, each with its own accepted
      message; a caller that got a response got the one accepted for the id it asked; one turned away asked too late. */
  ghost predicate Invariant(w: World) {
    && w.registry.stored.Keys == AnsweredIds(w)
    && w.registry.pending == w.registered - AnsweredIds(w)
    && AnsweredIds(w) <= w.written <= w.registered && "" !in w.registered
    && (forall i :: 0 <= i < |w.accepted| ==> IsAnswer(w, w.accepted[i]))
    && (forall c :: c in w.clients ==> ClientOk(w, w.clients[c]))
    && w.loginMark <= |w.accepted| && forall i :: w.loginMark <= i < |w.accepted| ==> ValidIfLogin(w, w.accepted[i])
  }

  /** An answer on which a login fails: an error, or a result without an API key or without the time of the
      authorization. */
  ghost predicate FailsLogin(m: Message) {
    m.Malformed? || m.isError || (m.hasResult && (m.apiKey == "" || m.authorizedSince == ""))
  }

  /** A message with an id, on which the login does not fail if it answers the login request. */
  ghost predicate ValidIfLogin(w: World, m: Message) {
    m.Message? && m.id != "" && (m.id == w.registry.loginId ==> !FailsLogin(m))
  }

  ghost predicate IsAnswer(w: World, m: Message) {
    m.Message? && m.id in w.registry.stored && w.registry.stored[m.id] == m
  }

  ghost predicate ClientOk(w: World, c: Client) {
    match c
    case Waiting(id) => id in w.registered
    case Failed(id, registered) => registered ==> id in AnsweredIds(w)
    case Returned(id, m) => m.Message? && m.id == id && m in w.accepted
  }

  lemma AcceptOne(w: World, m: Message)
    requires Invariant(w) && Enabled(w, Deliver(m)) && Accepts(w.registry, m)
    ensures AnsweredIds(w.(accepted := w.accepted + [m])) == AnsweredIds(w) + {m.id}
  {}

  lemma {:induction false} DeliverKeepsInvariant(w: World, m: Message, widened: bool)
    requires Invariant(w) && Enabled(w, Deliver(m))
    ensures Invariant(Apply(w, Deliver(m), widened))
  {
    if Accepts(w.registry, m) {
      var next := Apply(w, Deliver(m), widened);
      AcceptOne(w, m);
      assert AnsweredIds(next) == AnsweredIds(w) + {m.id};
      forall i | 0 <= i < |next.accepted| ensures IsAnswer(next, next.accepted[i]) {
        if i < |w.accepted| {
          assert next.accepted[i] == w.accepted[i] && IsAnswer(w, w.accepted[i]);
        }
      }
      forall c | c in next.clients ensures ClientOk(next, next.clients[c]) {
        assert ClientOk(w, w.clients[c]);
      }
    } else {
      assert Apply(w, Deliver(m), widened) == w;
    }
  }

  /** A look at a registry that respects the invariant. */
  lemma LookIs(w: World, id: string, widened: bool)
    requires Invariant(w)
    ensures AfterAsk(w, id, widened) ==
            if id !in w.registered then Failed(id, false)
            else if id !in AnsweredIds(w) then Waiting(id)
            else if widened then Returned(id, w.registry.stored[id]) else Failed(id, true)
  {}

  lemma {:induction false} StoredIsAccepted(w: World, id: string)
    requires Invariant(w) && id in w.registry.stored
    ensures w.registry.stored[id].Message? && w.registry.stored[id].id == id && w.registry.stored[id] in w.accepted
  {}

  lemma {:induction false} ClientKeepsInvariant(w: World, client: nat, c: Client)
    requires Invariant(w) && ClientOk(w, c)
    ensures Invariant(w.(clients := w.clients[client := c]))
  {}

  lemma {:induction false} StepKeepsInvariant(w: World, e: Event, widened: bool)
    requires Invariant(w) && Enabled(w, e)
    ensures Invariant(Apply(w, e, widened))
  {
    match e
    case Deliver(m) => DeliverKeepsInvariant(w, m, widened);
    case Ask(client, id) =>
      LookIs(w, id, widened);
      if id in w.registry.stored {
        StoredIsAccepted(w, id);
      }
      ClientKeepsInvariant(w, client, AfterAsk(w, id, widened));
    case Wake(client) =>
      var id := w.clients[client].id;
      StoredIsAccepted(w, id);
      ClientKeepsInvariant(w, client, Returned(id, w.registry.stored[id]));
    case _ =>
      var next := Apply(w, e, widened);
      assert AnsweredIds(next) == AnsweredIds(w);
      forall i | 0 <= i < |next.accepted| ensures IsAnswer(next, next.accepted[i]) {
        assert IsAnswer(w, w.accepted[i]);
      }
      forall k | k in next.clients ensures ClientOk(next, next.clients[k]) {
        assert ClientOk(w, w.clients[k]);
      }
  }

  /** The invariant holds after every interleaving, with the check as written and with the widened one. */
  lemma {:induction false} EveryRunKeepsInvariant(events: seq<Event>, widened: bool)
    requires CanRun(START, events, widened)
    ensures Invariant(Final(START, events, widened))
  {
    if events == [] {
      assert AnsweredIds(START) == {};
    } else {
      EveryRunKeepsInvariant(events[..|events|-1], widened);
      StepKeepsInvariant(Final(START, events[..|events|-1], widened), events[|events|-1], widened);
    }
  }

  // ----- The login id -----

  /** Runs of the program as it is: the login id is never assigned. */
  predicate WithoutLogin(events: seq<Event>) {
    forall k :: 0 <= k < |events| ==> !events[k].SetLogin?
  }

  /** The id most recently assigned as the login id. */
  function AssignedLogin(events: seq<Event>): string {
    if events == [] then ""
    else
      var last := events[|events|-1];
      if last.SetLogin? then last.id else AssignedLogin(events[..|events|-1])
  }

  /** The delivered messages that carry an id, in order, but for failing answers to a login request whose id is
      assigned. */
  ghost function AcceptableAnswers(events: seq<Event>): seq<Message> {
    if events == [] then []
    else
      var init, last := events[..|events|-1], events[|events|-1];
      AcceptableAnswers(init)
      + (if last.Deliver? && last.m.Message? && last.m.id != ""
            && (last.m.id == AssignedLogin(init) ==> !FailsLogin(last.m))
         then [last.m] else [])
  }

  /** Over every run these, and no others, are the accepted messages; each of them is stored under its id. */
  lemma {:induction false} ExactlyTheAcceptable(events: seq<Event>, widened: bool)
    requires CanRun(START, events, widened)
    ensures var w := Final(START, events, widened);
            && w.registry.loginId == AssignedLogin(events) && w.accepted == AcceptableAnswers(events)
            && (forall m :: m in AcceptableAnswers(events) ==> IsAnswer(w, m))
  {
    AcceptedAre(events, widened);
    EveryRunKeepsInvariant(events, widened);
  }

  lemma {:induction false} AcceptedAre(events: seq<Event>, widened: bool)
    ensures var w := Final(START, events, widened);
            w.registry.loginId == AssignedLogin(events) && w.accepted == AcceptableAnswers(events)
  {
    if events != [] {
      AcceptedAre(events[..|events|-1], widened);
    }
  }

  /** The delivered messages that carry an id, in order. */
  function DeliveredAnswers(events: seq<Event>): seq<Message> {
    if events == [] then []
    else
      var last := events[|events|-1];
      DeliveredAnswers(events[..|events|-1])
      + (if last.Deliver? && last.m.Message? && last.m.id != "" then [last.m] else [])
  }

  lemma {:induction false} AllAreAcceptable(events: seq<Event>)
    requires WithoutLogin(events)
    ensures AssignedLogin(events) == "" && AcceptableAnswers(events) == DeliveredAnswers(events)
  {
    if events != [] {
      AllAreAcceptable(events[..|events|-1]);
    }
  }

  /** Over every run without a login the guard on the login id never fires: the messages accepted are all those
      delivered with an id, errors included, and each of them is stored under its id. */
  lemma {:induction false} EveryAnswerIsStored(events: seq<Event>, widened: bool)
    requires CanRun(START, events, widened) && WithoutLogin(events)
    ensures var w := Final(START, events, widened);
            && w.registry.loginId == "" && w.accepted == DeliveredAnswers(events)
            && (forall m :: m in DeliveredAnswers(events) ==> IsAnswer(w, m))
  {
    ExactlyTheAcceptable(events, widened);
    AllAreAcceptable(events);
  }

  /** Once the login id is set, the only answer to the login request that is ever stored, or returned to a caller, is
      a valid one: after a failed login the request stays pending and its callers stay blocked. */
  lemma {:induction false} LoginAnswerIsValid(events: seq<Event>, widened: bool)
    requires CanRun(START, events, widened)
    ensures var w := Final(START, events, widened);
            w.loginMark <= |w.accepted| && (w.registry.loginId in w.registry.stored ==>
              var m := w.registry.stored[w.registry.loginId]; m in w.accepted[..w.loginMark] || ValidIfLogin(w, m))
    ensures var w := Final(START, events, widened);
            w.registry.loginId != "" && w.registry.loginId !in w.registry.stored ==>
                w.registry.loginId in w.registry.pending
  {
    EveryRunKeepsInvariant(events, widened);
    LoginIsRegistered(events, widened);
    var w := Final(START, events, widened);
    if w.registry.loginId in w.registry.stored {
      StoredIsAccepted(w, w.registry.loginId);
      var m := w.registry.stored[w.registry.loginId];
      var i :| 0 <= i < |w.accepted| && w.accepted[i] == m;
      assert i < w.loginMark ==> w.accepted[..w.loginMark][i] == m;
    }
  }

  lemma {:induction false} LoginIsRegistered(events: seq<Event>, widened: bool)
    requires CanRun(START, events, widened)
    ensures var w := Final(START, events, widened); w.registry.loginId == "" || w.registry.loginId in w.registered
  {
    if events != [] {
      LoginIsRegistered(events[..|events|-1], widened);
    }
  }

  /** Pending and stored are disjoint, and together they are the registered requests. */
  lemma {:induction false} PendingOrStored(events: seq<Event>, widened: bool)
    requires CanRun(START, events, widened)
    ensures var w := Final(START, events, widened);
            w.registry.pending !! w.registry.stored.Keys && w.registry.pending + w.registry.stored.Keys == w.registered
  {
    EveryRunKeepsInvariant(events, widened);
  }

  /** As written, a caller asking for a registered request is turned away exactly when the answer has already been
      accepted. */
  lemma {:induction false} EarlyAnswerIsLostIff(events: seq<Event>, id: string)
    requires CanRun(START, events, false) && id in Final(START, events, false).registered
    ensures var w := Final(START, events, false);
            && (Look(w.registry, id) == NotFound <==> id in AnsweredIds(w))
            && (Look(w.registry, id) == Blocks <==> id !in AnsweredIds(w))
  {
    EveryRunKeepsInvariant(events, false);
    LookIs(Final(START, events, false), id, false);
  }

  /** With the widened check every registered request is served: at once with its own answer if that has arrived, by
      waiting otherwise. */
  lemma {:induction false} WidenedCheckServesAll(events: seq<Event>, id: string)
    requires CanRun(START, events, true) && id in Final(START, events, true).registered
    ensures var w := Final(START, events, true);
            match LookWidened(w.registry, id)
            case NotFound => false
            case Blocks => id !in AnsweredIds(w)
            case Found(m) => m.Message? && m.id == id && m in w.accepted
  {
    EveryRunKeepsInvariant(events, true);
    var w := Final(START, events, true);
    if id in w.registry.stored {
      StoredIsAccepted(w, id);
    }
  }

  /** With the widened check no call for a registered request has failed, in any interleaving. */
  ghost predicate NoneTurnedAway(w: World) {
    forall c :: c in w.clients && w.clients[c].Failed? ==> !w.clients[c].registered
  }

  lemma {:induction false} WidenedNeverTurnsAway(events: seq<Event>)
    requires CanRun(START, events, true)
    ensures NoneTurnedAway(Final(START, events, true))
  {
    if events != [] {
      var init := events[..|events|-1];
      WidenedNeverTurnsAway(init);
      EveryRunKeepsInvariant(init, true);
      var w := Final(START, init, true);
      match events[|events|-1]
      case Ask(client, id) => LookIs(w, id, true);
      case _ =>
    }
  }

  lemma {:induction false} FinalConcat(w: World, a: seq<Event>, b: seq<Event>, widened: bool)
    ensures Final(w, a + b, widened) == Final(Final(w, a, widened), b, widened)
    ensures CanRun(w, a + b, widened) ==> CanRun(w, a, widened) && CanRun(Final(w, a, widened), b, widened)
  {
    if b == [] {
      assert a + b == a;
    } else {
      FinalConcat(w, a, b[..|b|-1], widened);
      assert (a + b)[..|a + b|-1] == a + b[..|b|-1];
    }
  }

  lemma AnswerStays(w: World, e: Event, id: string, widened: bool)
    requires Invariant(w) && Enabled(w, e) && id in w.registry.stored
    ensures var next := Apply(w, e, widened);
            id in next.registry.stored && next.registry.stored[id] == w.registry.stored[id]
  {}

  /** An accepted answer is never replaced or dropped. */
  lemma {:induction false} AnswersStay(before: seq<Event>, after: seq<Event>, id: string, widened: bool)
    requires CanRun(START, before + after, widened) && id in Final(START, before, widened).registry.stored
    ensures var first, last := Final(START, before, widened), Final(START, before + after, widened);
            id in last.registry.stored && last.registry.stored[id] == first.registry.stored[id]
  {
    hide Apply, Invariant, Enabled;
    if after == [] {
      assert before + after == before;
    } else {
      var init := after[..|after|-1];
      assert (before + after)[..|before + after|-1] == before + init;
      AnswersStay(before, init, id, widened);
      EveryRunKeepsInvariant(before + init, widened);
      AnswerStays(Final(START, before + init, widened), after[|after|-1], id, widened);
    }
  }

  lemma ClientStays(w: World, e: Event, client: nat, id: string, widened: bool)
    requires Enabled(w, e) && client in w.clients
    ensures client in Apply(w, e, widened).clients
    ensures w.clients[client] == Waiting(id) && e != Wake(client) ==>
            Apply(w, e, widened).clients[client] == Waiting(id)
  {}

  lemma {:induction false} WaiterStays(w: World, events: seq<Event>, client: nat, id: string, widened: bool)
    requires CanRun(w, events, widened) && client in w.clients && w.clients[client] == Waiting(id)
    ensures client in Final(w, events, widened).clients
    ensures Wake(client) !in events ==> Final(w, events, widened).clients[client] == Waiting(id)
  {
    if events != [] {
      var init := events[..|events|-1];
      WaiterStays(w, init, client, id, widened);
      ClientStays(Final(w, init, widened), events[|events|-1], client, id, widened);
    }
  }

  /** A caller that passed the check stays waiting until it is woken, and can be woken from the moment its answer is
      accepted. */
  lemma {:induction false} WaiterIsServed(before: seq<Event>, after: seq<Event>, client: nat, id: string, widened: bool)
    requires CanRun(START, before + after, widened) && Wake(client) !in after
    requires client in Final(START, before, widened).clients
             && Final(START, before, widened).clients[client] == Waiting(id)
    ensures var w := Final(START, before + after, widened);
            && client in w.clients && w.clients[client] == Waiting(id)
            && (id in AnsweredIds(w) <==> Enabled(w, Wake(client)))
  {
    FinalConcat(START, before, after, widened);
    EveryRunKeepsInvariant(before + after, widened);
    WaiterStays(Final(START, before, widened), after, client, id, widened);
  }

  /** A waiting caller can be woken exactly when its answer has been accepted, and is then given that answer. */
  lemma {:induction false} WakeReturnsAnswer(events: seq<Event>, client: nat, id: string, widened: bool)
    requires CanRun(START, events, widened)
    requires client in Final(START, events, widened).clients
             && Final(START, events, widened).clients[client] == Waiting(id)
    ensures var w := Final(START, events, widened);
            && (Enabled(w, Wake(client)) <==> id in AnsweredIds(w))
            && (Enabled(w, Wake(client)) ==>
                 var c := Apply(w, Wake(client), widened).clients[client];
                 c.Returned? && c.id == id && c.response.Message? && c.response.id == id && c.response in w.accepted
                 && forall m :: m in w.accepted && m.Message? && m.id == id ==> c.response == m)
  {
    EveryRunKeepsInvariant(events, widened);
    var w := Final(START, events, widened);
    if id in w.registry.stored {
      StoredIsAccepted(w, id);
      forall m | m in w.accepted && m.Message? && m.id == id ensures m == w.registry.stored[id] {
        var i :| 0 <= i < |w.accepted| && w.accepted[i] == m;
        assert IsAnswer(w, w.accepted[i]);
      }
    }
  }

  lemma OneMore(w: World, events: seq<Event>, e: Event, widened: bool)
    ensures Final(w, events + [e], widened) == Apply(Final(w, events, widened), e, widened)
    ensures CanRun(w, events + [e], widened) <==> CanRun(w, events, widened) && Enabled(Final(w, events, widened), e)
  {}

  /** The four steps that lose an answer: it is accepted before its caller asks, who is then turned away. */
  lemma AnswerLost(id: string, m: Message) returns (events: seq<Event>)
    requires id != "" && m.Message? && m.id == id
    ensures CanRun(START, events, false)
    ensures var w := Final(START, events, false);
            w.registry.stored == map[id := m] && w.clients == map[0 := Failed(id, true)]
  {
    var e0, e1, e2, e3 := RegisterRequest(id), WriteRequest(id), Deliver(m), Ask(0, id);
    OneMore(START, [], e0, false);
    OneMore(START, [e0], e1, false);
    assert AnsweredIds(Final(START, [e0, e1], false)) == {};
    assert [] + [e0] == [e0] && [e0] + [e1] == [e0, e1];
    assert [e0, e1] + [e2] == [e0, e1, e2] && [e0, e1, e2] + [e3] == [e0, e1, e2, e3];
    OneMore(START, [e0, e1], e2, false);
    OneMore(START, [e0, e1, e2], e3, false);
    events := [e0, e1, e2, e3];
  }

  // ----- With a login request: its answer can overtake the assignment of the login id -----

  /** The request is answered, with an error, before its id is known to be the login request's: the error is stored as
      any answer. */
  lemma LoginErrorStored(id: string, m: Message) returns (events: seq<Event>)
    requires id != "" && m.Message? && m.id == id && m.isError
    ensures CanRun(START, events, false)
    ensures var w := Final(START, events, false);
            w.registry == Registry({}, map[id := m], id) && w.accepted == [m] && w.loginMark == 1 && !ValidIfLogin(w, m)
  {
    var e0, e1, e2, e3 := RegisterRequest(id), WriteRequest(id), Deliver(m), SetLogin(id);
    OneMore(START, [], e0, false);
    OneMore(START, [e0], e1, false);
    assert AnsweredIds(Final(START, [e0, e1], false)) == {};
    assert [] + [e0] == [e0] && [e0] + [e1] == [e0, e1];
    assert [e0, e1] + [e2] == [e0, e1, e2] && [e0, e1, e2] + [e3] == [e0, e1, e2, e3];
    OneMore(START, [e0, e1], e2, false);
    OneMore(START, [e0, e1, e2], e3, false);
    events := [e0, e1, e2, e3];
  }

  /** Whenever the login request is written and unanswered and its id not yet assigned, the order of the two next
      steps decides: delivered first, any answer is stored; assigned first, exactly a good answer is stored, and
      otherwise the request stays pending. */
  lemma {:induction false} LoginOrderDecides(events: seq<Event>, id: string, m: Message, widened: bool)
    requires CanRun(START, events, widened) && m.Message? && m.id == id
    requires var w := Final(START, events, widened);
             w.registry.loginId == "" && id in w.written && id !in AnsweredIds(w)
    ensures CanRun(START, events + [Deliver(m), SetLogin(id)], widened)
            && CanRun(START, events + [SetLogin(id), Deliver(m)], widened)
    ensures var r := Final(START, events + [Deliver(m), SetLogin(id)], widened).registry;
            r.loginId == id && id !in r.pending && id in r.stored && r.stored[id] == m
    ensures var r := Final(START, events + [SetLogin(id), Deliver(m)], widened).registry;
            r.loginId == id && (if !FailsLogin(m) then id !in r.pending && id in r.stored && r.stored[id] == m
                                else id in r.pending && id !in r.stored)
  {
    EveryRunKeepsInvariant(events, widened);
    var w := Final(START, events, widened);
    var d, l := Deliver(m), SetLogin(id);
    OneMore(START, events, d, widened);
    OneMore(START, events, l, widened);
    OneMore(START, events + [d], l, widened);
    OneMore(START, events + [l], d, widened);
    assert events + [d] + [l] == events + [d, l] && events + [l] + [d] == events + [l, d];
    assert AnsweredIds(Apply(w, l, widened)) == AnsweredIds(w);
  }

  /** Over every run: a bad login answer is stored exactly when it was accepted before the login id was assigned. */
  lemma {:induction false} BadLoginStoredIff(events: seq<Event>, widened: bool)
    requires CanRun(START, events, widened)
    ensures var w := Final(START, events, widened); var id := w.registry.loginId;
            w.loginMark <= |w.accepted| &&
            (id in w.registry.stored && FailsLogin(w.registry.stored[id])
             <==> exists m :: m in w.accepted[..w.loginMark] && m.Message? && m.id == id && FailsLogin(m))
  {
    EveryRunKeepsInvariant(events, widened);
    LoginAnswerIsValid(events, widened);
    var w := Final(START, events, widened);
    var id := w.registry.loginId;
    if m :| m in w.accepted[..w.loginMark] && m.Message? && m.id == id && FailsLogin(m) {
      assert m in w.accepted;
      var i :| 0 <= i < |w.accepted| && w.accepted[i] == m;
      assert IsAnswer(w, w.accepted[i]);
    }
    if id in w.registry.stored && FailsLogin(w.registry.stored[id]) {
      StoredIsAccepted(w, id);
    }
  }
}

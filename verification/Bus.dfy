/** The snoop bus (BusController::broadcast, BusInterface, TripleBusInterface, TripleBusController):
    all-or-nothing delivery of demand snoops, back-invalidations that reach everyone, and one order of
    both taken in by every interface. */
module BusModel {
  import opened Wrappers
  import opened Sequences
  import opened Messages

  /** MessageType. */
  datatype Kind = Request | DataResponse | ServiceRequest

  datatype Selector = Neither | Requests | Responses

  datatype Sent = Sent(kind: Kind, m: Message)

  datatype Delivery = Delivery(sent: Sent, num: nat)

  /** A bus interface; `triple` tells a TripleBusInterface, whose virtual methods add the service
      channel, from a plain one. `outgoing` is its transmit buffer of that channel. The rest is history:
      the requests and back-invalidations delivered to it and those it took, the data responses delivered
      and taken, and the back-invalidations it accepted for the bus and those that left, each in order. */
  datatype Interface = Interface(triple: bool, maxSize: int, selector: Selector, serviceSelected: bool,
                                 requests: seq<Message>, requestSeqs: seq<nat>, responses: seq<Message>, responseSeqs: seq<nat>,
                                 services: seq<Message>, serviceSeqs: seq<nat>, outgoing: seq<Message>,
                                 heard: seq<Delivery>, took: seq<Delivery>, replies: seq<Delivery>, repliesTook: seq<Delivery>,
                                 offered: seq<Message>, served: seq<Message>)

  /** The interfaces, the one delivery counter, and what the request bus and the service channel have
      carried. */
  datatype Bus = Bus(faces: seq<Interface>, counter: nat, carried: seq<Sent>)

  // ---- one interface ------------------------------------------------------------------------------

  predicate CanAcceptRX(f: Interface, kind: Kind) {
    match kind
    case Request => |f.requests| < f.maxSize
    case DataResponse => true
    case ServiceRequest => f.triple
  }

  predicate Accepts(f: Interface, m: Message, kind: Kind) {
    match kind
    case Request => m.IsDemandRequest() ==> |f.requests| < f.maxSize
    case DataResponse => true
    case ServiceRequest => f.triple
  }

  /** pushMessage2RX of an accepted message, taking this delivery number. */
  function Deliver(f: Interface, m: Message, kind: Kind, num: nat): Interface {
    match kind
    case Request =>
      f.(requests := f.requests + [m], requestSeqs := f.requestSeqs + [num], heard := f.heard + [Delivery(Sent(Request, m), num)])
    case DataResponse =>
      f.(responses := f.responses + [m], responseSeqs := f.responseSeqs + [num], replies := f.replies + [Delivery(Sent(DataResponse, m), num)])
    case ServiceRequest =>
      f.(services := f.services + [m], serviceSeqs := f.serviceSeqs + [num], heard := f.heard + [Delivery(Sent(ServiceRequest, m), num)])
  }

  ghost predicate Parallel(f: Interface) {
    |f.requests| == |f.requestSeqs| && |f.responses| == |f.responseSeqs| && |f.services| == |f.serviceSeqs|
  }

  lemma DeliverKeepsParallel(f: Interface, m: Message, kind: Kind, num: nat)
    requires Parallel(f)
    ensures Parallel(Deliver(f, m, kind, num))
  {
  }

  /** A back-invalidation is handed out only if the bus delivered it before the first request. */
  predicate ServiceFirst(f: Interface) {
    && f.triple && f.services != [] && f.serviceSeqs != []
    && (f.requests == [] || f.requestSeqs == [] || f.serviceSeqs[0] < f.requestSeqs[0])
  }

  /** BusInterface::peekMessage: the buffer not served last, if it has something. */
  function PeekTurns(f: Interface): (Option<Message>, Interface) {
    if f.requests != [] && !f.selector.Requests? then (Some(f.requests[0]), f.(selector := Requests))
    else if f.responses != [] && !f.selector.Responses? then (Some(f.responses[0]), f.(selector := Responses))
    else if f.requests != [] then (Some(f.requests[0]), f.(selector := Requests))
    else if f.responses != [] then (Some(f.responses[0]), f.(selector := Responses))
    else (None, f.(selector := Neither))
  }

  /** peekMessage. */
  function Peek(f: Interface): (Option<Message>, Interface) {
    if ServiceFirst(f) then (Some(f.services[0]), f.(serviceSelected := true)) else PeekTurns(f.(serviceSelected := false))
  }

  predicate CanPop(f: Interface) {
    if f.serviceSelected then f.services != [] && f.serviceSeqs != []
    else
      && (f.selector.Requests? ==> f.requests != [] && f.requestSeqs != [])
      && (f.selector.Responses? ==> f.responses != [] && f.responseSeqs != [])
  }

  /** popFrontMessage. */
  function Pop(f: Interface): Interface
    requires CanPop(f)
  {
    if f.serviceSelected then
      f.(services := f.services[1..], serviceSeqs := f.serviceSeqs[1..], serviceSelected := false,
         took := f.took + [Delivery(Sent(ServiceRequest, f.services[0]), f.serviceSeqs[0])])
    else
      match f.selector
      case Requests =>
        f.(requests := f.requests[1..], requestSeqs := f.requestSeqs[1..],
           took := f.took + [Delivery(Sent(Request, f.requests[0]), f.requestSeqs[0])])
      case Responses =>
        f.(responses := f.responses[1..], responseSeqs := f.responseSeqs[1..],
           repliesTook := f.repliesTook + [Delivery(Sent(DataResponse, f.responses[0]), f.responseSeqs[0])])
      case Neither => f
  }

  /** What an interface has waiting. */
  function Waiting(f: Interface): multiset<Message> { multiset(f.requests) + multiset(f.responses) + multiset(f.services) }

  /** One buffer lost its head m, with its number. */
  ghost predicate LostHead(before: seq<Message>, nums: seq<nat>, after: seq<Message>, nums': seq<nat>, m: Message) {
    before != [] && nums != [] && before[0] == m && after == before[1..] && nums' == nums[1..]
  }

  /** Exactly the message shown left, from the head of its buffer; the others stand as they were. */
  ghost predicate OneLeft(f: Interface, g: Interface, m: Message) {
    var (requests, responses, services) :=
      (g.requests == f.requests && g.requestSeqs == f.requestSeqs, g.responses == f.responses && g.responseSeqs == f.responseSeqs,
       g.services == f.services && g.serviceSeqs == f.serviceSeqs);
    || (LostHead(f.requests, f.requestSeqs, g.requests, g.requestSeqs, m) && responses && services)
    || (LostHead(f.responses, f.responseSeqs, g.responses, g.responseSeqs, m) && requests && services)
    || (LostHead(f.services, f.serviceSeqs, g.services, g.serviceSeqs, m) && requests && responses)
  }

  lemma HeadGoes(s: seq<Message>)
    requires s != []
    ensures multiset(s) == multiset(s[1..]) + multiset{s[0]}
  {
    assert s == [s[0]] + s[1..];
  }

  lemma Regroup(a: multiset<Message>, b: multiset<Message>, c: multiset<Message>, m: multiset<Message>)
    ensures (a + m) + b + c == (a + b + c) + m && a + (b + m) + c == (a + b + c) + m && a + b + (c + m) == (a + b + c) + m
  {
  }

  /** Which buffer the message shown leaves. */
  lemma {:induction false} OneLess(f: Interface, g: Interface, m: Message)
    requires OneLeft(f, g, m)
    ensures Waiting(f) == Waiting(g) + multiset{m}
  {
    Regroup(multiset(g.requests), multiset(g.responses), multiset(g.services), multiset{m});
    if f.requests != [] && f.requests[0] == m && g.requests == f.requests[1..] { HeadGoes(f.requests); }
    if f.responses != [] && f.responses[0] == m && g.responses == f.responses[1..] { HeadGoes(f.responses); }
    if f.services != [] && f.services[0] == m && g.services == f.services[1..] { HeadGoes(f.services); }
  }

  lemma {:induction false} ShownLeaves(f: Interface)
    requires Parallel(f) && (!f.triple ==> f.services == [])
    ensures var (got, f') := Peek(f);
      && (got.None? <==> f.requests == [] && f.responses == [] && f.services == [])
      && (got.Some? ==> CanPop(f') && OneLeft(f, Pop(f'), got.value))
  {
    if ServiceFirst(f) {
      assert LostHead(f.services, f.serviceSeqs, f.services[1..], f.serviceSeqs[1..], f.services[0]);
    } else {
      var g := f.(serviceSelected := false);
      var (got, g') := PeekTurns(g);
      if got.Some? {
        if g'.selector.Requests? { assert LostHead(f.requests, f.requestSeqs, f.requests[1..], f.requestSeqs[1..], got.value); }
        else { assert LostHead(f.responses, f.responseSeqs, f.responses[1..], f.responseSeqs[1..], got.value); }
      }
    }
  }

  /** A peek shows something whenever something waits, and a pop takes exactly what was shown. */
  lemma {:induction false} PopTakesWhatWasShown(f: Interface)
    requires Parallel(f) && (!f.triple ==> f.services == [])
    ensures var (got, f') := Peek(f);
      && (got.None? <==> f.requests == [] && f.responses == [] && f.services == [])
      && (got.Some? ==> CanPop(f') && OneLeft(f, Pop(f'), got.value)
                        && Waiting(f) == Waiting(Pop(f')) + multiset{got.value})
  {
    ShownLeaves(f);
    var (got, f') := Peek(f);
    if got.Some? { OneLess(f, Pop(f'), got.value); }
  }

  /** Requests and responses take turns while no back-invalidation is due: with both waiting, a peek
      shows the other one's head next, and a head that waits is shown within two peeks whatever is taken
      in between. */
  lemma PeeksAlternate(f: Interface, taken: bool)
    requires f.requests != [] && f.responses != [] && Parallel(f) && f.services == []
    ensures var (first, f1) := Peek(f);
      var f2 := if taken then Pop(f1) else f1;
      && first.Some? && CanPop(f1)
      && (first.value == f.requests[0] && f1.selector.Requests? ==>
            Peek(f2).0 == Some(f.responses[0]) && Peek(f2).1.selector.Responses?)
      && (first.value == f.responses[0] && f1.selector.Responses? ==>
            Peek(f2).0 == Some(f.requests[0]) && Peek(f2).1.selector.Requests?)
  {
  }

  // ---- the bus ------------------------------------------------------------------------------------

  /** The service channel is there: every interface is a triple one. */
  predicate AllTriple(bus: Bus) { forall i :: 0 <= i < |bus.faces| ==> bus.faces[i].triple }

  /** A demand snoop needs room everywhere. */
  predicate Held(bus: Bus, m: Message, kind: Kind) {
    m.IsDemandRequest() && exists i :: 0 <= i < |bus.faces| && !CanAcceptRX(bus.faces[i], kind)
  }

  lemma AcceptedUnlessHeld(bus: Bus, m: Message, kind: Kind)
    requires !Held(bus, m, kind) && (kind.ServiceRequest? ==> AllTriple(bus))
    ensures forall i :: 0 <= i < |bus.faces| ==> Accepts(bus.faces[i], m, kind)
  {
  }

  function DeliverAll(bus: Bus, m: Message, kind: Kind): seq<Interface> {
    seq(|bus.faces|, i requires 0 <= i < |bus.faces| => Deliver(bus.faces[i], m, kind, bus.counter + 1 + i))
  }

  /** broadcast: refused, or delivered to every interface, each delivery taking the next number. Only the
      controller of a triple bus broadcasts on the service channel. */
  function Broadcast(bus: Bus, m: Message, kind: Kind): (r: (bool, Bus))
    requires kind.ServiceRequest? ==> AllTriple(bus)
    ensures |r.1.faces| == |bus.faces|
  {
    if Held(bus, m, kind) then (false, bus)
    else (true, Bus(DeliverAll(bus, m, kind), bus.counter + |bus.faces|,
                    if kind.DataResponse? then bus.carried else bus.carried + [Sent(kind, m)]))
  }

  ghost predicate ReachedAll(before: Bus, after: Bus, m: Message) {
    |after.faces| == |before.faces| &&
    forall i :: 0 <= i < |before.faces| ==> Waiting(after.faces[i]) == Waiting(before.faces[i]) + multiset{m}
  }

  /** A delivery adds the message to what waits, and leaves the transmit buffer alone. */
  lemma DeliverAdds(f: Interface, m: Message, kind: Kind, num: nat)
    ensures Waiting(Deliver(f, m, kind, num)) == Waiting(f) + multiset{m} && Deliver(f, m, kind, num).outgoing == f.outgoing
  {
  }

  /** A refused snoop changes nothing anywhere; a broadcast that reports success has reached every
      interface; and only a demand snoop on the request bus is ever refused, exactly when some interface
      has no room. */
  lemma {:induction false} BroadcastIsAllOrNothing(bus: Bus, m: Message, kind: Kind)
    requires kind.ServiceRequest? ==> AllTriple(bus)
    ensures var (ok, after) := Broadcast(bus, m, kind);
      && (if ok then ReachedAll(bus, after, m) else after == bus)
      && (!ok <==> kind.Request? && m.IsDemandRequest()
                   && exists i :: 0 <= i < |bus.faces| && |bus.faces[i].requests| >= bus.faces[i].maxSize)
  {
    if Held(bus, m, kind) {
      var i :| 0 <= i < |bus.faces| && !CanAcceptRX(bus.faces[i], kind);
      assert kind.Request? && |bus.faces[i].requests| >= bus.faces[i].maxSize;
    } else {
      forall i | 0 <= i < |bus.faces| ensures Waiting(DeliverAll(bus, m, kind)[i]) == Waiting(bus.faces[i]) + multiset{m} {
        DeliverAdds(bus.faces[i], m, kind, bus.counter + 1 + i);
      }
    }
  }

  /** The lowest interface with something to send on the service channel. */
  function FirstOutgoing(faces: seq<Interface>): (k: nat)
    ensures k <= |faces|
    ensures forall i :: 0 <= i < k ==> faces[i].outgoing == []
    ensures k < |faces| ==> faces[k].outgoing != []
  {
    if faces == [] || faces[0].outgoing != [] then 0 else 1 + FirstOutgoing(faces[1..])
  }

  function DropOutgoing(bus: Bus, k: nat): Bus
    requires k < |bus.faces| && bus.faces[k].outgoing != []
  {
    var f := bus.faces[k];
    bus.(faces := bus.faces[k := f.(outgoing := f.outgoing[1..], served := f.served + [f.outgoing[0]])])
  }

  /** serviceBusStep: one message per cycle; it leaves its sender's buffer if it was broadcast. */
  function ServiceStep(bus: Bus): (r: Bus)
    requires AllTriple(bus)
    ensures |r.faces| == |bus.faces|
  {
    var k := FirstOutgoing(bus.faces);
    if k == |bus.faces| then bus
    else
      var (ok, after) := Broadcast(bus, bus.faces[k].outgoing[0], ServiceRequest);
      if ok then DropOutgoing(after, k) else bus
  }

  /** The transmit buffers after a service step. */
  ghost predicate OneOutgoingLess(before: Bus, after: Bus, k: nat) {
    && |after.faces| == |before.faces| && k < |before.faces| && before.faces[k].outgoing != []
    && forall i :: 0 <= i < |before.faces| ==>
         after.faces[i].outgoing == if i == k then before.faces[i].outgoing[1..] else before.faces[i].outgoing
  }

  /** A back-invalidation never waits for room: every service step takes the first one of the lowest
      interface that has any, and it has then reached every interface. */
  lemma {:induction false} ServiceStepReachesAll(bus: Bus)
    requires AllTriple(bus)
    ensures var (k, after) := (FirstOutgoing(bus.faces), ServiceStep(bus));
      if k < |bus.faces| then OneOutgoingLess(bus, after, k) && ReachedAll(bus, after, bus.faces[k].outgoing[0]) else after == bus
  {
    var k, after := FirstOutgoing(bus.faces), ServiceStep(bus);
    if k < |bus.faces| {
      var m := bus.faces[k].outgoing[0];
      var served := DeliverAll(bus, m, ServiceRequest);
      forall i | 0 <= i < |bus.faces|
        ensures Waiting(after.faces[i]) == Waiting(bus.faces[i]) + multiset{m}
        ensures after.faces[i].outgoing == if i == k then bus.faces[i].outgoing[1..] else bus.faces[i].outgoing
      {
        DeliverAdds(bus.faces[i], m, ServiceRequest, bus.counter + 1 + i);
        assert served[i] == Deliver(bus.faces[i], m, ServiceRequest, bus.counter + 1 + i);
        assert Waiting(after.faces[i]) == Waiting(served[i]);
      }
    }
  }

  // ---- runs ---------------------------------------------------------------------------------------

  /** `Respond` is a data response sent to one interface; `Offer` a back-invalidation its owner hands to
      an interface (pushMessage); `Serve` the service step of a triple bus; `Intake` a peek and, if the
      message is taken, the pop. */
  datatype Event =
    | Snoop(m: Message)
    | Respond(i: nat, m: Message)
    | Offer(i: nat, m: Message)
    | Serve
    | Intake(i: nat, taken: Message -> bool)

  function TakeIn(f: Interface, taken: Message -> bool): Interface {
    var (got, f') := Peek(f);
    if got.Some? && taken(got.value) && CanPop(f') then Pop(f') else f'
  }

  /** TripleBusInterface::pushMessage on the service channel. */
  predicate CanOffer(f: Interface) { f.triple && |f.outgoing| < f.maxSize }

  function TakeOffer(f: Interface, m: Message): Interface {
    if CanOffer(f) then f.(outgoing := f.outgoing + [m], offered := f.offered + [m]) else f
  }

  /** An intake takes exactly the message shown, if it is wanted; and with room an offer waits behind those
      accepted before. */
  lemma {:induction false} IntakeAndOffer(f: Interface, taken: Message -> bool, m: Message)
    requires Parallel(f) && (!f.triple ==> f.services == [])
    ensures var (got, g) := (Peek(f).0, TakeIn(f, taken));
      if got.Some? && taken(got.value) then OneLeft(f, g, got.value)
      else g.requests == f.requests && g.responses == f.responses && g.services == f.services
    ensures TakeOffer(f, m).outgoing == f.outgoing + if f.triple && |f.outgoing| < f.maxSize then [m] else []
  {
    ShownLeaves(f);
  }

  function Step(bus: Bus, e: Event): Bus {
    match e
    case Snoop(m) => Broadcast(bus, m, Request).1
    case Respond(i, m) =>
      if i < |bus.faces| then
        bus.(faces := bus.faces[i := Deliver(bus.faces[i], m, DataResponse, bus.counter + 1)], counter := bus.counter + 1)
      else bus
    case Offer(i, m) => if i < |bus.faces| then bus.(faces := bus.faces[i := TakeOffer(bus.faces[i], m)]) else bus
    case Serve => if AllTriple(bus) then ServiceStep(bus) else bus
    case Intake(i, taken) =>
      if i < |bus.faces| then bus.(faces := bus.faces[i := TakeIn(bus.faces[i], taken)]) else bus
  }

  function RunAll(bus: Bus, events: seq<Event>): Bus {
    if events == [] then bus else Step(RunAll(bus, events[..|events| - 1]), events[|events| - 1])
  }

  ghost predicate Ascending(nums: seq<nat>) { forall i, j :: 0 <= i < j < |nums| ==> nums[i] < nums[j] }

  ghost predicate UpTo(nums: seq<nat>, counter: nat) { forall i :: 0 <= i < |nums| ==> nums[i] <= counter }

  function Nums(ds: seq<Delivery>): (r: seq<nat>)
    ensures |r| == |ds| && forall i :: 0 <= i < |r| ==> r[i] == ds[i].num
  {
    seq(|ds|, i requires 0 <= i < |ds| => ds[i].num)
  }

  function Sents(ds: seq<Delivery>): (r: seq<Sent>)
    ensures |r| == |ds| && forall i :: 0 <= i < |r| ==> r[i] == ds[i].sent
  {
    seq(|ds|, i requires 0 <= i < |ds| => ds[i].sent)
  }

  function MessagesIn(ds: seq<Delivery>): (r: seq<Message>)
    ensures |r| == |ds| && forall i :: 0 <= i < |r| ==> r[i] == ds[i].sent.m
  {
    seq(|ds|, i requires 0 <= i < |ds| => ds[i].sent.m)
  }

  function IsOf(kind: Kind): Delivery -> bool { (d: Delivery) => d.sent.kind == kind }

  function OfKind(ds: seq<Delivery>, kind: Kind): seq<Delivery> { Filter(ds, IsOf(kind)) }

  /** A receive buffer holds exactly these deliveries. */
  ghost predicate Holds(buffer: seq<Message>, nums: seq<nat>, ds: seq<Delivery>) {
    buffer == MessagesIn(ds) && nums == Nums(ds)
  }

  /** Deliveries on the two ordered channels, numbered upwards. */
  ghost predicate Numbered(ds: seq<Delivery>) {
    (forall i, j :: 0 <= i < j < |ds| ==> ds[i].num < ds[j].num) && forall i :: 0 <= i < |ds| ==> !ds[i].sent.kind.DataResponse?
  }

  /** Of what was heard, a beginning was taken, and the rest is queued by kind. */
  ghost predicate Queues(f: Interface) {
    && f.took <= f.heard && (!f.triple ==> f.services == [])
    && Holds(f.requests, f.requestSeqs, OfKind(f.heard[|f.took|..], Request))
    && Holds(f.services, f.serviceSeqs, OfKind(f.heard[|f.took|..], ServiceRequest))
  }

  /** It heard what the bus carried, in order. */
  ghost predicate Hears(f: Interface, carried: seq<Sent>, counter: nat) {
    Sents(f.heard) == carried && Numbered(f.heard) && UpTo(Nums(f.heard), counter)
  }

  /** Of the data responses delivered a beginning was taken, and the rest is queued; of the
      back-invalidations accepted a beginning has left, and the rest is in the transmit buffer. */
  ghost predicate Replies(f: Interface) {
    && f.repliesTook <= f.replies && Holds(f.responses, f.responseSeqs, f.replies[|f.repliesTook|..])
    && forall i :: 0 <= i < |f.replies| ==> f.replies[i].sent.kind == DataResponse
  }

  datatype Aspect = Buffers | Hearing | Answers | Offers

  ghost predicate Fits(f: Interface, carried: seq<Sent>, counter: nat, a: Aspect) {
    match a
    case Buffers => Parallel(f) && Queues(f)
    case Hearing => Hears(f, carried, counter)
    case Answers => Replies(f) && Ascending(Nums(f.replies)) && UpTo(Nums(f.replies), counter)
    case Offers => f.offered == f.served + f.outgoing
  }

  /** What holds of every interface. (The quantifier over an enumeration keeps the verifier from
      unfolding it at every mention; Aspects opens it.) */
  ghost predicate Sound(f: Interface, carried: seq<Sent>, counter: nat) {
    forall a {:trigger Fits(f, carried, counter, a)} :: Fits(f, carried, counter, a)
  }

  lemma Aspects(f: Interface, carried: seq<Sent>, counter: nat)
    requires Sound(f, carried, counter)
    ensures Fits(f, carried, counter, Buffers) && Fits(f, carried, counter, Hearing)
    ensures Fits(f, carried, counter, Answers) && Fits(f, carried, counter, Offers)
  {
  }

  /** A message carried earlier has the smaller number at every pair of interfaces. */
  ghost predicate OneOrder(f: Interface, g: Interface) {
    forall k, l :: 0 <= k < l < |f.heard| && l < |g.heard| ==> f.heard[k].num < g.heard[l].num
  }

  ghost predicate AllSound(bus: Bus) {
    && (forall i {:trigger Sound(bus.faces[i], bus.carried, bus.counter)} :: 0 <= i < |bus.faces| ==>
          Sound(bus.faces[i], bus.carried, bus.counter))
    && (forall i, j {:trigger OneOrder(bus.faces[i], bus.faces[j])} :: 0 <= i < |bus.faces| && 0 <= j < |bus.faces| ==>
          OneOrder(bus.faces[i], bus.faces[j]))
  }

  // ---- deliveries ---------------------------------------------------------------------------------

  lemma {:induction false} HoldsOneMore(buffer: seq<Message>, nums: seq<nat>, ds: seq<Delivery>, d: Delivery)
    requires Holds(buffer, nums, ds)
    ensures Holds(buffer + [d.sent.m], nums + [d.num], ds + [d])
  {
  }

  /** A delivery on one of the ordered channels goes to the end of its queue. */
  lemma {:induction false} HearingKeepsQueues(f: Interface, m: Message, kind: Kind, num: nat)
    requires Queues(f) && !kind.DataResponse? && (kind.ServiceRequest? ==> f.triple)
    ensures Queues(Deliver(f, m, kind, num))
  {
    var d, rest := Delivery(Sent(kind, m), num), f.heard[|f.took|..];
    assert (f.heard + [d])[|f.took|..] == rest + [d];
    FilterLast(rest, d, IsOf(Request));
    FilterLast(rest, d, IsOf(ServiceRequest));
    if kind.Request? { HoldsOneMore(f.requests, f.requestSeqs, OfKind(rest, Request), d); }
    if kind.ServiceRequest? { HoldsOneMore(f.services, f.serviceSeqs, OfKind(rest, ServiceRequest), d); }
  }

  lemma {:induction false} HearingIsNumbered(f: Interface, carried: seq<Sent>, counter: nat, d: Delivery, later: nat)
    requires Hears(f, carried, counter) && counter < d.num <= later && !d.sent.kind.DataResponse?
    ensures Hears(f.(heard := f.heard + [d]), carried + [d.sent], later)
  {
    forall i | 0 <= i < |f.heard| ensures f.heard[i].num < d.num { assert Nums(f.heard)[i] <= counter; }
  }

  lemma {:induction false} RepliesOneMore(f: Interface, counter: nat, m: Message, num: nat, later: nat)
    requires Replies(f) && Ascending(Nums(f.replies)) && UpTo(Nums(f.replies), counter) && counter < num <= later
    ensures var g := Deliver(f, m, DataResponse, num);
      Replies(g) && Ascending(Nums(g.replies)) && UpTo(Nums(g.replies), later)
  {
    var d, rest := Delivery(Sent(DataResponse, m), num), f.replies[|f.repliesTook|..];
    assert (f.replies + [d])[|f.repliesTook|..] == rest + [d];
    HoldsOneMore(f.responses, f.responseSeqs, rest, d);
    assert Nums(f.replies + [d]) == Nums(f.replies) + [num];
  }

  lemma {:induction false} AnswerOne(f: Interface, carried: seq<Sent>, counter: nat, m: Message, num: nat, later: nat)
    requires Sound(f, carried, counter) && counter < num <= later
    ensures Sound(Deliver(f, m, DataResponse, num), carried, later)
  {
    Aspects(f, carried, counter);
    RepliesOneMore(f, counter, m, num, later);
    var g := Deliver(f, m, DataResponse, num);
    assert Fits(g, carried, later, Buffers) && Fits(g, carried, later, Hearing) && Fits(g, carried, later, Offers);
  }

  /** A delivery to one interface, seen once the counter has moved on. */
  lemma {:induction false} HearOne(f: Interface, carried: seq<Sent>, counter: nat, m: Message, kind: Kind, num: nat, later: nat)
    requires Sound(f, carried, counter) && counter < num <= later && (kind.ServiceRequest? ==> f.triple)
    ensures Sound(Deliver(f, m, kind, num), if kind.DataResponse? then carried else carried + [Sent(kind, m)], later)
  {
    if kind.DataResponse? {
      AnswerOne(f, carried, counter, m, num, later);
    } else {
      var g := Deliver(f, m, kind, num);
      Aspects(f, carried, counter);
      HearingKeepsQueues(f, m, kind, num);
      HearingIsNumbered(f, carried, counter, Delivery(Sent(kind, m), num), later);
      assert Fits(g, carried + [Sent(kind, m)], later, Answers) && Fits(g, carried + [Sent(kind, m)], later, Buffers);
    }
  }

  lemma LaterCounter(f: Interface, carried: seq<Sent>, counter: nat, later: nat)
    requires Sound(f, carried, counter) && counter <= later
    ensures Sound(f, carried, later)
  {
    Aspects(f, carried, counter);
  }

  // ---- intake -------------------------------------------------------------------------------------

  /** The first delivery not yet taken is the first of its kind, and older than the first of the other. */
  lemma {:induction false} NextOfItsKind(rest: seq<Delivery>, kind: Kind, other: Kind)
    requires rest != [] && Numbered(rest) && rest[0].sent.kind == kind != other
    ensures OfKind(rest, kind) == [rest[0]] + OfKind(rest[1..], kind) && OfKind(rest, other) == OfKind(rest[1..], other)
    ensures OfKind(rest, other) != [] ==> rest[0].num < OfKind(rest, other)[0].num
  {
    assert rest == [rest[0]] + rest[1..];
    FilterFirst(rest[0], rest[1..], IsOf(kind));
    FilterFirst(rest[0], rest[1..], IsOf(other));
    if OfKind(rest, other) != [] {
      FilterIn(rest[1..], IsOf(other));
      assert OfKind(rest, other)[0] in rest[1..];
    }
  }

  /** Which of the two it is decides whether a back-invalidation is shown. */
  lemma {:induction false} NextIsShown(f: Interface)
    requires Queues(f) && Numbered(f.heard) && |f.took| < |f.heard|
    ensures var next := f.heard[|f.took|].sent.kind;
      if next.ServiceRequest? then ServiceFirst(f) else next.Request? && f.requests != [] && !ServiceFirst(f)
  {
    var rest := f.heard[|f.took|..];
    var kind := rest[0].sent.kind;
    assert !f.heard[|f.took|].sent.kind.DataResponse?;
    if kind.ServiceRequest? { NextOfItsKind(rest, ServiceRequest, Request); } else { NextOfItsKind(rest, Request, ServiceRequest); }
  }

  /** Nothing left to take: nothing is queued. */
  lemma NothingNext(f: Interface)
    requires Queues(f) && |f.took| == |f.heard|
    ensures f.requests == [] && f.services == []
  {
    assert f.heard[|f.took|..] == [];
  }

  lemma HoldsTail(buffer: seq<Message>, nums: seq<nat>, d: Delivery, ds: seq<Delivery>)
    requires Holds(buffer, nums, [d] + ds)
    ensures buffer != [] && nums != [] && buffer[0] == d.sent.m && nums[0] == d.num && Holds(buffer[1..], nums[1..], ds)
  {
    assert ([d] + ds)[0] == d && ([d] + ds)[1..] == ds;
  }

  /** One of the kinds loses its first delivery. */
  lemma {:induction false} NextGoes(f: Interface, kind: Kind, other: Kind)
    requires f.took <= f.heard && |f.took| < |f.heard| && Numbered(f.heard) && f.heard[|f.took|].sent.kind == kind != other
    ensures var (rest, next) := (f.heard[|f.took|..], f.heard[|f.took|]);
      && f.took + [next] <= f.heard && f.heard[|f.took + [next]|..] == rest[1..]
      && OfKind(rest, kind) == [next] + OfKind(rest[1..], kind) && OfKind(rest, other) == OfKind(rest[1..], other)
  {
    NextOfItsKind(f.heard[|f.took|..], kind, other);
  }

  /** A back-invalidation that is shown is the next the bus carried. */
  lemma {:induction false} PopService(f: Interface)
    requires Queues(f) && Numbered(f.heard) && ServiceFirst(f)
    ensures |f.took| < |f.heard|
    ensures var g := Pop(f.(serviceSelected := true)); g.took == f.took + [f.heard[|f.took|]] && Queues(g)
  {
    if |f.took| == |f.heard| { NothingNext(f); }
    NextIsShown(f);
    NextGoes(f, ServiceRequest, Request);
    HoldsTail(f.services, f.serviceSeqs, f.heard[|f.took|], OfKind(f.heard[|f.took|..][1..], ServiceRequest));
  }

  /** And so is a request that is shown. */
  lemma {:induction false} PopRequest(f: Interface)
    requires Queues(f) && Numbered(f.heard) && !ServiceFirst(f) && f.requests != []
    ensures |f.took| < |f.heard| && f.requestSeqs != []
    ensures var g := Pop(f.(serviceSelected := false, selector := Requests));
      g.took == f.took + [f.heard[|f.took|]] && Queues(g)
  {
    if |f.took| == |f.heard| { NothingNext(f); }
    NextIsShown(f);
    NextGoes(f, Request, ServiceRequest);
    HoldsTail(f.requests, f.requestSeqs, f.heard[|f.took|], OfKind(f.heard[|f.took|..][1..], Request));
  }

  /** What is shown, and in what state of the interface. */
  lemma PeekShows(f: Interface)
    requires Parallel(f)
    ensures var (got, f') := Peek(f);
      if ServiceFirst(f) then f' == f.(serviceSelected := true) && CanPop(f')
      else f' == f.(serviceSelected := false, selector := f'.selector)
           && (got.Some? ==> CanPop(f') && !f'.selector.Neither?)
  {
  }

  /** What is popped of the ordered channels is the next one the bus carried. */
  lemma {:induction false} PopTakesTheNext(f: Interface)
    requires Queues(f) && Parallel(f) && Numbered(f.heard) && Peek(f).0.Some?
    ensures CanPop(Peek(f).1)
    ensures var (f', g) := (Peek(f).1, Pop(Peek(f).1));
      Queues(g) && if !f'.serviceSelected && f'.selector.Responses? then g.took == f.took
                   else |f.took| < |f.heard| && g.took == f.took + [f.heard[|f.took|]]
  {
    PeekShows(f);
    var f' := Peek(f).1;
    if ServiceFirst(f) {
      PopService(f);
    } else if f'.selector.Requests? {
      PopRequest(f);
    }
  }

  /** Which buffer is selected is no matter. */
  lemma {:induction false} SelectionKeeps(f: Interface, carried: seq<Sent>, counter: nat, selector: Selector, service: bool)
    requires Sound(f, carried, counter)
    ensures Sound(f.(selector := selector, serviceSelected := service), carried, counter)
  {
    Aspects(f, carried, counter);
  }

  lemma {:induction false} PopKeepsAnswers(f: Interface, carried: seq<Sent>, counter: nat)
    requires CanPop(f) && Fits(f, carried, counter, Answers) && Fits(f, carried, counter, Offers)
    ensures Fits(Pop(f), carried, counter, Answers) && Fits(Pop(f), carried, counter, Offers)
  {
    if !f.serviceSelected && f.selector.Responses? {
      var n, rest := |f.repliesTook|, f.replies[|f.repliesTook|..];
      assert |MessagesIn(rest)| > 0;
      assert rest == [f.replies[n]] + f.replies[n + 1..];
      HoldsTail(f.responses, f.responseSeqs, f.replies[n], f.replies[n + 1..]);
    }
  }

  lemma {:induction false} PopKeeps(f: Interface, carried: seq<Sent>, counter: nat)
    requires Sound(f, carried, counter) && Peek(f).0.Some?
    ensures CanPop(Peek(f).1) && Sound(Pop(Peek(f).1), carried, counter)
    ensures Pop(Peek(f).1).heard == f.heard
  {
    Aspects(f, carried, counter);
    PeekShows(f);
    PopTakesTheNext(f);
    PopKeepsAnswers(Peek(f).1, carried, counter);
    var g := Pop(Peek(f).1);
    assert Fits(g, carried, counter, Hearing) && Fits(g, carried, counter, Buffers);
  }

  lemma {:induction false} TakeInKeeps(f: Interface, carried: seq<Sent>, counter: nat, taken: Message -> bool)
    requires Sound(f, carried, counter)
    ensures Sound(TakeIn(f, taken), carried, counter) && TakeIn(f, taken).heard == f.heard
  {
    var (got, f') := Peek(f);
    if got.Some? && taken(got.value) && CanPop(f') {
      PopKeeps(f, carried, counter);
    } else {
      assert f' == f.(selector := f'.selector, serviceSelected := f'.serviceSelected);
      SelectionKeeps(f, carried, counter, f'.selector, f'.serviceSelected);
    }
  }

  // ---- what every event keeps -----------------------------------------------------------------------

  lemma {:induction false} HearAll(bus: Bus, m: Message, kind: Kind, i: nat)
    requires AllSound(bus) && (kind.ServiceRequest? ==> AllTriple(bus)) && i < |bus.faces|
    ensures Sound(Deliver(bus.faces[i], m, kind, bus.counter + 1 + i), if kind.DataResponse? then bus.carried else bus.carried + [Sent(kind, m)],
                  bus.counter + |bus.faces|)
  {
    assert Sound(bus.faces[i], bus.carried, bus.counter);
    HearOne(bus.faces[i], bus.carried, bus.counter, m, kind, bus.counter + 1 + i, bus.counter + |bus.faces|);
  }

  lemma {:induction false} BroadcastKeeps(bus: Bus, m: Message, kind: Kind)
    requires AllSound(bus) && (kind.ServiceRequest? ==> AllTriple(bus))
    ensures AllSound(Broadcast(bus, m, kind).1)
  {
    var after := Broadcast(bus, m, kind).1;
    if !Held(bus, m, kind) {
      forall i | 0 <= i < |after.faces| ensures Sound(after.faces[i], after.carried, after.counter) { HearAll(bus, m, kind, i); }
      forall i, j | 0 <= i < |after.faces| && 0 <= j < |after.faces| ensures OneOrder(after.faces[i], after.faces[j]) {
        BroadcastKeepsOrder(bus, m, kind, i, j);
      }
    }
  }

  lemma {:induction false} BroadcastKeepsOrder(bus: Bus, m: Message, kind: Kind, i: nat, j: nat)
    requires AllSound(bus) && i < |bus.faces| && j < |bus.faces|
    ensures OneOrder(Deliver(bus.faces[i], m, kind, bus.counter + 1 + i), Deliver(bus.faces[j], m, kind, bus.counter + 1 + j))
  {
    var f, g := bus.faces[i], bus.faces[j];
    assert OneOrder(f, g) && Sound(f, bus.carried, bus.counter) && Sound(g, bus.carried, bus.counter);
    HearersAgree(f, g, bus.carried, bus.counter);
    DeliverKeepsOrder(f, g, m, kind, bus.counter, bus.counter + 1 + i, bus.counter + 1 + j);
  }

  lemma {:induction false} DeliverKeepsOrder(f: Interface, g: Interface, m: Message, kind: Kind, counter: nat, x: nat, y: nat)
    requires OneOrder(f, g) && |f.heard| == |g.heard| && counter < y
    requires forall k :: 0 <= k < |f.heard| ==> f.heard[k].num <= counter
    ensures OneOrder(Deliver(f, m, kind, x), Deliver(g, m, kind, y))
  {
  }

  lemma {:induction false} HearersAgree(f: Interface, g: Interface, carried: seq<Sent>, counter: nat)
    requires Sound(f, carried, counter) && Sound(g, carried, counter)
    ensures |f.heard| == |g.heard| == |carried| && forall k :: 0 <= k < |f.heard| ==> f.heard[k].num <= counter
  {
    Aspects(f, carried, counter);
    Aspects(g, carried, counter);
    assert |Sents(f.heard)| == |Sents(g.heard)|;
    forall k | 0 <= k < |f.heard| ensures f.heard[k].num <= counter { assert Nums(f.heard)[k] <= counter; }
  }

  /** A change to one interface that it hears nothing by. */
  lemma {:induction false} OneFaceKeeps(bus: Bus, i: nat, f: Interface, counter: nat)
    requires AllSound(bus) && i < |bus.faces| && bus.counter <= counter
    requires Sound(f, bus.carried, counter) && f.heard == bus.faces[i].heard
    ensures AllSound(bus.(faces := bus.faces[i := f], counter := counter))
  {
    var after := bus.(faces := bus.faces[i := f], counter := counter);
    forall k | 0 <= k < |after.faces| ensures Sound(after.faces[k], after.carried, after.counter) {
      assert Sound(bus.faces[k], bus.carried, bus.counter);
      LaterCounter(bus.faces[k], bus.carried, bus.counter, counter);
    }
    forall k, l | 0 <= k < |after.faces| && 0 <= l < |after.faces| ensures OneOrder(after.faces[k], after.faces[l]) {
      assert OneOrder(bus.faces[k], bus.faces[l]);
      SameHeard(bus.faces[k], bus.faces[l], after.faces[k], after.faces[l]);
    }
  }

  lemma SameHeard(f: Interface, g: Interface, f': Interface, g': Interface)
    requires OneOrder(f, g) && f'.heard == f.heard && g'.heard == g.heard
    ensures OneOrder(f', g')
  {
  }

  lemma {:induction false} OfferKeeps(f: Interface, carried: seq<Sent>, counter: nat, m: Message)
    requires Sound(f, carried, counter)
    ensures Sound(TakeOffer(f, m), carried, counter)
  {
    Aspects(f, carried, counter);
    var g := TakeOffer(f, m);
    assert Fits(g, carried, counter, Buffers) && Fits(g, carried, counter, Hearing) && Fits(g, carried, counter, Answers);
  }

  lemma {:induction false} ServedKeeps(f: Interface, carried: seq<Sent>, counter: nat)
    requires Sound(f, carried, counter) && f.outgoing != []
    ensures Sound(f.(outgoing := f.outgoing[1..], served := f.served + [f.outgoing[0]]), carried, counter)
  {
    Aspects(f, carried, counter);
    var g := f.(outgoing := f.outgoing[1..], served := f.served + [f.outgoing[0]]);
    assert Fits(g, carried, counter, Buffers) && Fits(g, carried, counter, Hearing) && Fits(g, carried, counter, Answers);
    assert f.outgoing == [f.outgoing[0]] + f.outgoing[1..];
  }

  lemma {:induction false} ServeKeeps(bus: Bus)
    requires AllSound(bus) && AllTriple(bus)
    ensures AllSound(ServiceStep(bus))
  {
    var k := FirstOutgoing(bus.faces);
    if k < |bus.faces| {
      var m := bus.faces[k].outgoing[0];
      var (ok, after) := Broadcast(bus, m, ServiceRequest);
      BroadcastKeeps(bus, m, ServiceRequest);
      if ok {
        var f := after.faces[k];
        assert Sound(f, after.carried, after.counter);
        ServedKeeps(f, after.carried, after.counter);
        OneFaceKeeps(after, k, f.(outgoing := f.outgoing[1..], served := f.served + [f.outgoing[0]]), after.counter);
      }
    }
  }

  lemma {:induction false} StepKeeps(bus: Bus, e: Event)
    requires AllSound(bus)
    ensures AllSound(Step(bus, e)) && |Step(bus, e).faces| == |bus.faces|
  {
    match e {
      case Snoop(m) => BroadcastKeeps(bus, m, Request);
      case Respond(i, m) =>
        if i < |bus.faces| {
          assert Sound(bus.faces[i], bus.carried, bus.counter);
          HearOne(bus.faces[i], bus.carried, bus.counter, m, DataResponse, bus.counter + 1, bus.counter + 1);
          OneFaceKeeps(bus, i, Deliver(bus.faces[i], m, DataResponse, bus.counter + 1), bus.counter + 1);
        }
      case Offer(i, m) =>
        if i < |bus.faces| {
          assert Sound(bus.faces[i], bus.carried, bus.counter);
          OfferKeeps(bus.faces[i], bus.carried, bus.counter, m);
          OneFaceKeeps(bus, i, TakeOffer(bus.faces[i], m), bus.counter);
        }
      case Serve => if AllTriple(bus) { ServeKeeps(bus); }
      case Intake(i, taken) =>
        if i < |bus.faces| {
          assert Sound(bus.faces[i], bus.carried, bus.counter);
          TakeInKeeps(bus.faces[i], bus.carried, bus.counter, taken);
          OneFaceKeeps(bus, i, TakeIn(bus.faces[i], taken), bus.counter);
        }
    }
  }

  lemma {:induction false} RunKeeps(bus: Bus, events: seq<Event>)
    requires AllSound(bus)
    ensures AllSound(RunAll(bus, events)) && |RunAll(bus, events).faces| == |bus.faces|
    decreases |events|
  {
    if events != [] {
      RunKeeps(bus, events[..|events| - 1]);
      StepKeeps(RunAll(bus, events[..|events| - 1]), events[|events| - 1]);
    }
  }

  /** One order for all: over every run of snoops, back-invalidations, responses and intakes, all
      interfaces have heard the same sequence of requests and back-invalidations; each has taken a
      beginning of it, in that order over both channels, and has the rest queued; the delivery numbers of
      an earlier one are below those of a later one at every pair of interfaces. Likewise each has taken a
      beginning of the data responses delivered to it and has the rest queued, in order; and of the
      back-invalidations it accepted a beginning has been served and the rest waits, in order. */
  lemma {:induction false} EveryoneHearsTheSame(bus: Bus, events: seq<Event>, i: nat, j: nat)
    requires AllSound(bus) && i < |bus.faces| && j < |bus.faces|
    ensures var r := RunAll(bus, events);
      && |r.faces| == |bus.faces|
      && Sents(r.faces[i].heard) == Sents(r.faces[j].heard) == r.carried
      && |r.faces[i].took| <= |r.carried| && Sents(r.faces[i].took) == r.carried[..|r.faces[i].took|]
      && Queues(r.faces[i]) && Parallel(r.faces[i])
      && Replies(r.faces[i]) && Ascending(Nums(r.faces[i].replies)) && r.faces[i].offered == r.faces[i].served + r.faces[i].outgoing
      && (forall k, l :: 0 <= k < l < |r.carried| ==> r.faces[i].heard[k].num < r.faces[j].heard[l].num)
  {
    RunKeeps(bus, events);
    var r := RunAll(bus, events);
    assert Sound(r.faces[i], r.carried, r.counter) && Sound(r.faces[j], r.carried, r.counter);
    assert OneOrder(r.faces[i], r.faces[j]);
    Aspects(r.faces[i], r.carried, r.counter);
    Aspects(r.faces[j], r.carried, r.counter);
    HearersAgree(r.faces[i], r.faces[j], r.carried, r.counter);
  }

  function NewInterface(triple: bool, maxSize: int): Interface {
    Interface(triple, maxSize, Neither, false, [], [], [], [], [], [], [], [], [], [], [], [], [])
  }

  lemma NewBusQualifies(triple: bool, sizes: seq<int>, counter: nat)
    ensures AllSound(Bus(seq(|sizes|, i requires 0 <= i < |sizes| => NewInterface(triple, sizes[i])), counter, []))
  {
  }
}

module SnoopBus {
  import opened Wrappers
  import opened Messages
  import opened BusModel

  /** s_rx_delivery_seq, shared by all interfaces. */
  class DeliveryCounter {
    var value: nat
    constructor ()
      ensures value == 0
    {
      value := 0;
    }
  }

  /** BusInterface, or with `triple` TripleBusInterface, which overrides each of these methods for the
      service channel. */
  class BusInterface {
    const triple: bool
    const maxSize: int
    const counter: DeliveryCounter
    var selector: Selector
    var serviceSelected: bool
    var requests: seq<Message>
    var requestSeqs: seq<nat>
    var responses: seq<Message>
    var responseSeqs: seq<nat>
    var services: seq<Message>
    var serviceSeqs: seq<nat>
    var outgoing: seq<Message>
    ghost var heard: seq<Delivery>
    ghost var took: seq<Delivery>
    ghost var replies: seq<Delivery>
    ghost var repliesTook: seq<Delivery>
    ghost var offered: seq<Message>
    ghost var served: seq<Message>

    ghost function AsInterface(): Interface
      reads this
    {
      Interface(triple, maxSize, selector, serviceSelected, requests, requestSeqs, responses, responseSeqs, services, serviceSeqs,
                outgoing, heard, took, replies, repliesTook, offered, served)
    }

    ghost predicate Valid() reads this { Parallel(AsInterface()) }

    constructor (triple: bool, maxSize: int, counter: DeliveryCounter)
      ensures Valid() && AsInterface() == NewInterface(triple, maxSize) && this.counter == counter
    {
      this.triple, this.maxSize, this.counter, selector, serviceSelected := triple, maxSize, counter, Neither, false;
      requests, requestSeqs, responses, responseSeqs, services, serviceSeqs := [], [], [], [], [], [];
      outgoing, heard, took, replies, repliesTook, offered, served := [], [], [], [], [], [], [];
    }

    method PeekMessage() returns (got: Option<Message>)
      requires Valid()
      modifies this`selector, this`serviceSelected
      ensures Valid() && (got, AsInterface()) == Peek(old(AsInterface()))
    {
      if triple && services != [] && (requests == [] || serviceSeqs[0] < requestSeqs[0]) {
        serviceSelected := true;
        return Some(services[0]);
      }
      serviceSelected := false;
      for i := 0 to 2
        invariant Valid() && !serviceSelected
        invariant i == 0 ==> selector == old(selector)
        invariant i > 0 ==> selector == Neither && (old(selector).Requests? || requests == [])
                            && (old(selector).Responses? || responses == [])
        invariant i > 1 ==> requests == [] && responses == []
      {
        if requests != [] && !selector.Requests? {
          selector := Requests;
          return Some(requests[0]);
        }
        if responses != [] && !selector.Responses? {
          selector := Responses;
          return Some(responses[0]);
        }
        selector := Neither;
      }
      got := None;
    }

    /** popFrontMessage: exactly the message shown last leaves the head of its buffer. */
    method PopFrontMessage()
      requires Valid() && CanPop(AsInterface())
      modifies this
      ensures Valid() && AsInterface() == Pop(old(AsInterface()))
    {
      if !serviceSelected {
        PopPlain();
        return;
      }
      took := took + [Delivery(Sent(ServiceRequest, services[0]), serviceSeqs[0])];
      services, serviceSeqs, serviceSelected := services[1..], serviceSeqs[1..], false;
    }

    /** BusInterface::popFrontMessage. */
    method PopPlain()
      requires Valid() && CanPop(AsInterface()) && !serviceSelected
      modifies this
      ensures Valid() && AsInterface() == Pop(old(AsInterface()))
    {
      match selector
      case Requests =>
        took := took + [Delivery(Sent(Request, requests[0]), requestSeqs[0])];
        requests, requestSeqs := requests[1..], requestSeqs[1..];
      case Responses =>
        repliesTook := repliesTook + [Delivery(Sent(DataResponse, responses[0]), responseSeqs[0])];
        responses, responseSeqs := responses[1..], responseSeqs[1..];
      case Neither =>
    }

    method PushMessage2RX(m: Message, kind: Kind) returns (ok: bool)
      requires Valid()
      modifies this, counter
      ensures Valid() && (ok <==> Accepts(old(AsInterface()), m, kind))
      ensures AsInterface() == if ok then Deliver(old(AsInterface()), m, kind, old(counter.value) + 1) else old(AsInterface())
      ensures counter.value == old(counter.value) + if ok then 1 else 0
    {
      if !(triple && kind.ServiceRequest?) {
        ok := PushPlain(m, kind);
        return;
      }
      counter.value := counter.value + 1;
      services, serviceSeqs := services + [m], serviceSeqs + [counter.value];
      heard := heard + [Delivery(Sent(ServiceRequest, m), counter.value)];
      ok := true;
    }

    /** BusInterface::pushMessage2RX. */
    method PushPlain(m: Message, kind: Kind) returns (ok: bool)
      requires Valid() && !(triple && kind.ServiceRequest?)
      modifies this, counter
      ensures Valid() && (ok <==> Accepts(old(AsInterface()), m, kind))
      ensures AsInterface() == if ok then Deliver(old(AsInterface()), m, kind, old(counter.value) + 1) else old(AsInterface())
      ensures counter.value == old(counter.value) + if ok then 1 else 0
    {
      match kind
      case Request =>
        if m.IsDemandRequest() && |requests| >= maxSize { return false; }
        counter.value := counter.value + 1;
        requests, requestSeqs := requests + [m], requestSeqs + [counter.value];
        heard := heard + [Delivery(Sent(Request, m), counter.value)];
        ok := true;
      case DataResponse =>
        counter.value := counter.value + 1;
        responses, responseSeqs := responses + [m], responseSeqs + [counter.value];
        replies := replies + [Delivery(Sent(DataResponse, m), counter.value)];
        ok := true;
      case ServiceRequest =>
        ok := false;
    }

    method CanAcceptRX(kind: Kind) returns (ok: bool)
      ensures ok <==> BusModel.CanAcceptRX(AsInterface(), kind)
    {
      match kind
      case Request => ok := |requests| < maxSize;
      case DataResponse => ok := true;
      case ServiceRequest => ok := triple;
    }

    /** pushMessage on the service channel. */
    method PushService(m: Message) returns (ok: bool)
      requires Valid()
      modifies this`outgoing, this`offered
      ensures ok <==> triple && |old(outgoing)| < maxSize
      ensures outgoing == if ok then old(outgoing) + [m] else old(outgoing)
      ensures Valid() && (ok <==> CanOffer(old(AsInterface()))) && AsInterface() == TakeOffer(old(AsInterface()), m)
    {
      ok := triple && |outgoing| < maxSize;
      if ok { outgoing, offered := outgoing + [m], offered + [m]; }
    }

    /** The head of the service transmit buffer goes. */
    method DropService()
      requires Valid() && outgoing != []
      modifies this`outgoing, this`served
      ensures Valid() && AsInterface() == old(AsInterface()).(outgoing := old(outgoing)[1..], served := old(served) + [old(outgoing)[0]])
    {
      outgoing, served := outgoing[1..], served + [outgoing[0]];
    }
  }

  /** BusController, and TripleBusController when the interfaces are triple ones. */
  class BusController {
    const interfaces: seq<BusInterface>
    const counter: DeliveryCounter
    ghost var carried: seq<Sent>

    /** Distinct interfaces around one counter. */
    ghost predicate Valid()
      reads interfaces
    {
      && (forall i :: 0 <= i < |interfaces| ==> interfaces[i].Valid() && interfaces[i].counter == counter)
      && (forall i, j :: 0 <= i < j < |interfaces| ==> interfaces[i] != interfaces[j])
    }

    ghost function AsBus(): Bus
      reads this, interfaces, counter
    {
      Bus(seq(|interfaces|, i requires 0 <= i < |interfaces| reads interfaces => interfaces[i].AsInterface()), counter.value, carried)
    }

    /** The service channel is there. */
    ghost predicate IsTriple() { forall i :: 0 <= i < |interfaces| ==> interfaces[i].triple }

    constructor (interfaces: seq<BusInterface>, counter: DeliveryCounter)
      requires forall i :: 0 <= i < |interfaces| ==> interfaces[i].Valid() && interfaces[i].counter == counter
      requires forall i, j :: 0 <= i < j < |interfaces| ==> interfaces[i] != interfaces[j]
      ensures Valid() && this.interfaces == interfaces && this.counter == counter && carried == []
    {
      this.interfaces, this.counter := interfaces, counter;
      carried := [];
    }

    /** The check before a demand snoop. */
    method AllCanAccept(kind: Kind) returns (ok: bool)
      ensures ok <==> forall i :: 0 <= i < |interfaces| ==> BusModel.CanAcceptRX(interfaces[i].AsInterface(), kind)
    {
      for i := 0 to |interfaces|
        invariant forall k :: 0 <= k < i ==> BusModel.CanAcceptRX(interfaces[k].AsInterface(), kind)
      {
        var room := interfaces[i].CanAcceptRX(kind);
        if !room { return false; }
      }
      ok := true;
    }

    /** The bus as a value, interface by interface. */
    lemma FacesAre()
      ensures |AsBus().faces| == |interfaces| && forall i :: 0 <= i < |interfaces| ==> AsBus().faces[i] == interfaces[i].AsInterface()
      ensures AllTriple(AsBus()) == IsTriple()
    {
      var bus := AsBus();
      assert forall i :: 0 <= i < |interfaces| ==> bus.faces[i] == interfaces[i].AsInterface();
      assert forall i :: 0 <= i < |interfaces| ==> bus.faces[i].triple == interfaces[i].triple;
    }

    /** The delivery loop, when every interface accepts. */
    method DeliverLoop(m: Message, kind: Kind)
      requires Valid() && forall i :: 0 <= i < |interfaces| ==> Accepts(interfaces[i].AsInterface(), m, kind)
      modifies interfaces, counter
      ensures Valid()
      ensures forall i :: 0 <= i < |interfaces| ==>
        interfaces[i].AsInterface() == Deliver(old(interfaces[i].AsInterface()), m, kind, old(counter.value) + 1 + i)
      ensures counter.value == old(counter.value) + |interfaces|
    {
      for i := 0 to |interfaces|
        invariant counter.value == old(counter.value) + i
        invariant forall k :: 0 <= k < i ==>
          interfaces[k].AsInterface() == Deliver(old(interfaces[k].AsInterface()), m, kind, old(counter.value) + 1 + k)
        invariant forall k :: i <= k < |interfaces| ==> interfaces[k].AsInterface() == old(interfaces[k].AsInterface())
      {
        assert old(interfaces[i].Valid());
        var ok := interfaces[i].PushMessage2RX(m, kind);
      }
      forall i | 0 <= i < |interfaces| ensures interfaces[i].Valid() {
        assert old(interfaces[i].Valid());
        DeliverKeepsParallel(old(interfaces[i].AsInterface()), m, kind, old(counter.value) + 1 + i);
      }
    }

    /** What the loop does to the bus. */
    method DeliverToAll(m: Message, kind: Kind)
      requires Valid() && forall i :: 0 <= i < |interfaces| ==> Accepts(interfaces[i].AsInterface(), m, kind)
      modifies interfaces, counter
      ensures Valid()
      ensures AsBus() == old(AsBus()).(faces := DeliverAll(old(AsBus()), m, kind), counter := old(counter.value) + |interfaces|)
    {
      ghost var before := AsBus();
      FacesAre();
      DeliverLoop(m, kind);
      FacesAre();
      assert AsBus().faces == DeliverAll(before, m, kind);
    }

    /** The part of broadcast after the check, with its history. */
    method Carry(m: Message, kind: Kind)
      requires Valid() && (kind.ServiceRequest? ==> AllTriple(AsBus())) && !Held(AsBus(), m, kind)
      modifies this, interfaces, counter
      ensures Valid() && AsBus() == BusModel.Broadcast(old(AsBus()), m, kind).1
    {
      FacesAre();
      AcceptedUnlessHeld(AsBus(), m, kind);
      DeliverToAll(m, kind);
      ghost var delivered := AsBus();
      if !kind.DataResponse? { carried := carried + [Sent(kind, m)]; }
      assert AsBus() == delivered.(carried := carried);
    }

    method Broadcast(m: Message, kind: Kind) returns (ok: bool)
      requires Valid() && (kind.ServiceRequest? ==> IsTriple())
      modifies this, interfaces, counter
      ensures Valid() && AllTriple(old(AsBus())) == IsTriple()
      ensures (ok, AsBus()) == BusModel.Broadcast(old(AsBus()), m, kind)
    {
      FacesAre();
      if m.IsDemandRequest() {
        var room := AllCanAccept(kind);
        if !room { return false; }
      }
      Carry(m, kind);
      ok := true;
    }

    /** The lowest interface with something to send on the service channel. */
    method FindOutgoing() returns (k: nat)
      ensures k == FirstOutgoing(AsBus().faces)
    {
      ghost var faces := AsBus().faces;
      k := 0;
      while k < |interfaces|
        invariant k <= |interfaces| && FirstOutgoing(faces) == k + FirstOutgoing(faces[k..])
      {
        if interfaces[k].outgoing != [] { return; }
        assert faces[k..][1..] == faces[k + 1..];
        k := k + 1;
      }
    }

    /** serviceBusStep. */
    method ServiceBusStep()
      requires Valid() && IsTriple()
      modifies this, interfaces, counter
      ensures Valid() && AllTriple(old(AsBus())) && AsBus() == ServiceStep(old(AsBus()))
    {
      FacesAre();
      var k := FindOutgoing();
      if k < |interfaces| { ServeFrom(k); }
    }

    method ServeFrom(k: nat)
      requires Valid() && IsTriple() && k == FirstOutgoing(AsBus().faces) < |interfaces|
      modifies this, interfaces, counter
      ensures Valid() && AllTriple(old(AsBus())) && AsBus() == ServiceStep(old(AsBus()))
    {
      ghost var before := AsBus();
      FacesAre();
      var ok := Broadcast(interfaces[k].outgoing[0], ServiceRequest);
      if ok {
        DeliverAdds(before.faces[k], before.faces[k].outgoing[0], ServiceRequest, before.counter + 1 + k);
        DropAt(k);
      }
    }

    method DropAt(k: nat)
      requires Valid() && k < |interfaces| && AsBus().faces[k].outgoing != []
      modifies interfaces
      ensures Valid() && AsBus() == DropOutgoing(old(AsBus()), k)
    {
      FacesAre();
      interfaces[k].DropService();
      FacesAre();
      assert AsBus().faces == DropOutgoing(old(AsBus()), k).faces;
    }
  }
}

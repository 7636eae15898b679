/** The controller's scheduling as a value: queue, list, protocol state, and a log of what became of
    every message. Each function is one operation of the controller; the class in Controller.dfy does
    the same in place. */
module Scheduler {
  import opened Wrappers
  import opened Sequences
  import opened Messages
  import opened Geometry
  import opened QueueModel
  import opened ArrayPipeline
  import opened ControllerModel

  /** What does not change: the geometry, the protocol and the state it starts in. */
  datatype Setup<!S> = Setup(g: Geometry, table: Table<S>, start: S)

  /** A message arrives from an interface or as a write-back; leaves the queue; its row runs, at once or
      when its access completes; the row parks an access, which later runs its actions; a completed
      message whose row has become a stall goes back; a message not admitted or stalled is put back; or, if the queue refuses
      it, is lost (`queued`: how many the queue held before it was popped). */
  datatype Happening =
    | Arrived(m: Message) | Popped(m: Message) | Ran(m: Message) | Parked(m: Message) | Acted(m: Message)
    | Requeued(m: Message) | PutBack(m: Message) | Lost(m: Message, queued: nat)

  datatype Core<S> = Core(queue: Queue, list: Array, state: S, log: seq<Happening>)

  /** How one turn of processLogic ends. */
  datatype Turn = Idle | NotAdmitted(m: Message) | Deferred(m: Message) | Ran(m: Message) | Stalled(m: Message) | Aborted(m: Message)
  {
    /** processLogic returns. */
    predicate Ends() { Idle? || NotAdmitted? || Aborted? }
  }

  datatype Input = Input(above: Option<Message>, below: Option<Message>, writeBack: Option<Message>)

  function OwnerIn<S(!new)>(x: Setup<S>, c: Core<S>): Owner {
    OwnerOf(x.g, HeldLines(x.g, c.list.ops), ReadyIn(x.table, c.state))
  }

  // ---- the operations -----------------------------------------------------------------------------

  /** pipelineFire. */
  function Fire<S(!new)>(x: Setup<S>, c: Core<S>, op: Op): Core<S> {
    if op.kind.Actions? then
      c.(state := x.table.acted(c.state, op.msg), queue := c.queue.(dirty := true), log := c.log + [Acted(op.msg)])
    else if x.table.ready(c.state, op.msg) then
      c.(state := x.table.next(c.state, op.msg), queue := c.queue.(dirty := true), log := c.log + [Happening.Ran(op.msg)])
    else
      c.(queue := QueueModel.PushBack(c.queue, op.msg, NonReady, true), log := c.log + [Requeued(op.msg)])
  }

  function CompleteOne<S(!new)>(x: Setup<S>, c: Core<S>, k: nat): Core<S>
    requires k < |c.list.ops|
  {
    Fire(x, c.(list := CompleteAt(c.list, k)), c.list.ops[k])
  }

  /** The rescan loop of pipelineStep. */
  function CompleteDue<S(!new)>(x: Setup<S>, c: Core<S>): Core<S>
    decreases |c.list.ops|
  {
    var k := FirstDue(c.list, 0);
    if k < |c.list.ops| then CompleteDue(x, CompleteOne(x, c, k)) else c
  }

  /** pipelineStep. */
  function PipelineStep<S(!new)>(x: Setup<S>, c: Core<S>): Core<S> {
    CompleteDue(x, Admitted(c))
  }

  function FlushOne<S(!new)>(x: Setup<S>, c: Core<S>, k: nat): Core<S>
    requires k < |c.list.ops|
  {
    Fire(x, c.(list := Remove(c.list, k)), c.list.ops[k])
  }

  /** pipelineFlushLine. */
  function Flush<S(!new)>(x: Setup<S>, c: Core<S>, addr: nat): Core<S>
    decreases |c.list.ops|
  {
    var k := FirstOn(OnLine(x.g, addr), c.list.ops);
    if k < |c.list.ops| then Flush(x, FlushOne(x, c, k), addr) else c
  }

  function Arrive<S(!new)>(c: Core<S>, m: Message): Core<S> {
    c.(queue := QueueModel.PushBack(c.queue, m, NonReady, true), log := c.log + [Arrived(m)])
  }

  /** checkReplacements. */
  function Replace<S(!new)>(x: Setup<S>, c: Core<S>, writeBack: Message): Core<S> {
    Flush(x, Arrive(c, writeBack), writeBack.addr)
  }

  function FromAbove<S(!new)>(c: Core<S>, m: Message): Core<S> {
    c.(queue := QueueModel.PushFrontOrdered(c.queue, m), log := c.log + [Arrived(m)])
  }

  function FromBelow<S(!new)>(c: Core<S>, m: Message): Core<S> {
    if Refuses(c.queue, NonReady, !m.IsDemandRequest()) then c else Arrive(c, m)
  }

  /** addRequests2ProcessingQueue of the base class. */
  function Intake<S(!new)>(c: Core<S>, above: Option<Message>, below: Option<Message>): Core<S> {
    var d := if above.Some? then FromAbove(c, above.value) else c;
    if below.Some? then FromBelow(d, below.value) else d
  }

  /** A message goes back to the queue it was popped from; the answer is not looked at. */
  function GoBack<S(!new)>(c: Core<S>, m: Message, queued: nat): Core<S> {
    if Refuses(c.queue, NonReady, false) then c.(log := c.log + [Lost(m, queued)])
    else c.(queue := QueueModel.PushBack(c.queue, m, NonReady, false), log := c.log + [Happening.PutBack(m)])
  }

  /** The accesses a row parks join the list in order. */
  function Park<S(!new)>(c: Core<S>, parked: seq<Message>): Core<S>
    decreases |parked|
  {
    if parked == [] then c
    else Park(c.(list := Enqueue(c.list, Actions, parked[0]), log := c.log + [Happening.Parked(parked[0])]), parked[1..])
  }

  lemma {:induction false} ParkLeavesTheQueue<S(!new)>(c: Core<S>, parked: seq<Message>)
    ensures Park(c, parked).queue == c.queue && Park(c, parked).state == c.state
    decreases |parked|
  {
    if parked != [] {
      ParkLeavesTheQueue(c.(list := Enqueue(c.list, Actions, parked[0]), log := c.log + [Happening.Parked(parked[0])]), parked[1..]);
    }
  }

  /** A row runs at once, parking what its actions need the array for. */
  function RunNow<S(!new)>(x: Setup<S>, c: Core<S>, m: Message): Core<S> {
    var d := Park(c, x.table.parks(c.state, m));
    d.(state := x.table.next(c.state, m), log := d.log + [Happening.Ran(m)])
  }

  /** What processLogic does with a popped message. */
  function Process<S(!new)>(x: Setup<S>, c: Core<S>, m: Message, queued: nat): (Core<S>, Turn) {
    if !x.table.admits(c.state, m) then (GoBack(c, m, queued), NotAdmitted(m))
    else if x.table.defers(c.state, m) then (c.(list := Enqueue(c.list, Whole, m)), Turn.Deferred(m))
    else if !x.table.ready(c.state, m) then
      (GoBack(c, m, queued), if Refuses(c.queue, NonReady, false) then Aborted(m) else Stalled(m))
    else (RunNow(x, c, m), Turn.Ran(m))
  }

  function Pop<S(!new)>(x: Setup<S>, c: Core<S>): (Got, Core<S>) {
    var (got, q) := GetFirstReady(OwnerIn(x, c), c.queue);
    (got, c.(queue := q, log := if got.Item? then c.log + [Popped(got.m)] else c.log))
  }

  function TakeTurn<S(!new)>(x: Setup<S>, c: Core<S>): (Core<S>, Turn) {
    var (got, d) := Pop(x, c);
    if got.Nothing? then (d, Idle) else Process(x, d, got.m, |c.queue.buffer|)
  }

  /** A turn that lets the loop go on lowers the queue's weight. */
  lemma {:induction false} TurnWeighs<S(!new)>(x: Setup<S>, c: Core<S>)
    ensures var (d, turn) := TakeTurn(x, c);
      turn.Ends() || Weight(d.queue.buffer) < Weight(c.queue.buffer)
  {
    var (got, d) := Pop(x, c);
    if got.Item? {
      PopWeighs(x.g, HeldLines(x.g, c.list.ops), ReadyIn(x.table, c.state), c.queue);
      PushWeighs(d.queue, got.m);
      ParkLeavesTheQueue(d, x.table.parks(d.state, got.m));
    }
  }

  /** processLogic: it ends. */
  function ProcessLogic<S(!new)>(x: Setup<S>, c: Core<S>): (Core<S>, Turn)
    decreases Weight(c.queue.buffer)
  {
    TurnWeighs(x, c);
    var (d, turn) := TakeTurn(x, c);
    if turn.Ends() then (d, turn) else ProcessLogic(x, d)
  }

  /** cycleProcess. */
  function Cycle<S(!new)>(x: Setup<S>, c: Core<S>, i: Input): (Core<S>, Turn) {
    var d := Intake(PipelineStep(x, c), i.above, i.below);
    ProcessLogic(x, if i.writeBack.Some? then Replace(x, d, i.writeBack.value) else d)
  }

  // ---- the books ----------------------------------------------------------------------------------

  function EnteredBy(h: Happening): multiset<Message> {
    if h.Arrived? || h.Requeued? || h.PutBack? then multiset{h.m} else multiset{}
  }

  function PoppedBy(h: Happening): multiset<Message> { if h.Popped? then multiset{h.m} else multiset{} }

  /** What becomes of a popped message that does not wait. */
  function SettledBy(h: Happening): multiset<Message> {
    if h.Ran? || h.Requeued? || h.PutBack? || h.Lost? then multiset{h.m} else multiset{}
  }

  function ParkedBy(h: Happening): multiset<Message> { if h.Parked? then multiset{h.m} else multiset{} }

  function ActedBy(h: Happening): multiset<Message> { if h.Acted? then multiset{h.m} else multiset{} }

  function Entered(log: seq<Happening>): multiset<Message> { Sum(log, EnteredBy) }

  function PoppedAll(log: seq<Happening>): multiset<Message> { Sum(log, PoppedBy) }

  function Settled(log: seq<Happening>): multiset<Message> { Sum(log, SettledBy) }

  function ParkedAll(log: seq<Happening>): multiset<Message> { Sum(log, ParkedBy) }

  function ActedAll(log: seq<Happening>): multiset<Message> { Sum(log, ActedBy) }

  /** The protocol's state after the rows and actions of a log. */
  function StateAfter<S(!new)>(x: Setup<S>, log: seq<Happening>): S {
    if log == [] then x.start
    else
      var s, h := StateAfter(x, log[..|log| - 1]), log[|log| - 1];
      if h.Ran? then x.table.next(s, h.m) else if h.Acted? then x.table.acted(s, h.m) else s
  }

  /** A row ran because it was ready; a message went back because its row was not, or because it was
      not admitted; and one is lost only when the queue held more than its bound before the pop. */
  predicate Reason<S(!new)>(x: Setup<S>, bound: int, s: S, h: Happening) {
    match h
    case Ran(m) => x.table.ready(s, m)
    case Requeued(m) => !x.table.ready(s, m)
    case PutBack(m) => !x.table.admits(s, m) || !x.table.ready(s, m)
    case Lost(m, queued) => (!x.table.admits(s, m) || !x.table.ready(s, m)) && bound != -1 && queued > bound
    case _ => true
  }

  ghost predicate Justified<S(!new)>(x: Setup<S>, bound: int, log: seq<Happening>, i: nat)
    requires i < |log|
  {
    Reason(x, bound, StateAfter(x, log[..i]), log[i])
  }

  predicate Explained<S(!new)>(x: Setup<S>, c: Core<S>, h: Happening) { Reason(x, c.queue.maxSize, c.state, h) }

  function ItemOf(e: Element): multiset<Message> { multiset{e.item} }

  function InQueue(q: Queue): multiset<Message> { Sum(q.buffer, ItemOf) }

  lemma PushedQueue(q: Queue, m: Message, force: bool)
    requires !Refuses(q, NonReady, force)
    ensures InQueue(QueueModel.PushBack(q, m, NonReady, force)) == InQueue(q) + multiset{m}
  {
    SumLast(q.buffer, Element(m, NonReady), ItemOf);
  }

  lemma InsertedQueue(q: Queue, m: Message)
    ensures InQueue(QueueModel.PushFrontOrdered(q, m)) == InQueue(q) + multiset{m}
  {
    var pos := InsertAt(q.buffer, m.source);
    assert q.buffer == q.buffer[..pos] + q.buffer[pos..];
    SumAround(q.buffer[..pos], Element(m, Ready), q.buffer[pos..], ItemOf);
  }

  datatype Book = Entries | Settlements | Parkings | Transitions | Reasons

  ghost predicate Keeps<S(!new)>(x: Setup<S>, c: Core<S>, hand: multiset<Message>, b: Book) {
    match b
    case Entries => Entered(c.log) == PoppedAll(c.log) + InQueue(c.queue)
    case Settlements => PoppedAll(c.log) == Settled(c.log) + (OnList(c.list.ops, Whole) + hand)
    case Parkings => ParkedAll(c.log) == ActedAll(c.log) + OnList(c.list.ops, Actions)
    case Transitions => c.state == StateAfter(x, c.log)
    case Reasons => forall i {:trigger Justified(x, c.queue.maxSize, c.log, i)} :: 0 <= i < |c.log| ==> Justified(x, c.queue.maxSize, c.log, i)
  }

  /** The books of the log, with some messages in hand, popped and not dealt with. Every message that
      entered the queue is in it or was popped; every popped one ran, went back, was lost, waits whole
      on the list, or is in hand; every parked access ran its actions or is listed; the state is that of
      the rows and actions that ran, in order; and there was a reason for each. (The quantifier over an
      enumeration keeps the verifier from unfolding all five at every mention; Open gives them.) */
  ghost predicate Balanced<S(!new)>(x: Setup<S>, c: Core<S>, hand: multiset<Message>) {
    forall b {:trigger Keeps(x, c, hand, b)} :: Keeps(x, c, hand, b)
  }

  lemma Open<S(!new)>(x: Setup<S>, c: Core<S>, hand: multiset<Message>)
    requires Balanced(x, c, hand)
    ensures Keeps(x, c, hand, Entries) && Keeps(x, c, hand, Settlements) && Keeps(x, c, hand, Parkings)
    ensures Keeps(x, c, hand, Transitions) && Keeps(x, c, hand, Reasons)
  {
  }

  /** Five books closed again make the whole. */
  lemma Close<S(!new)>(x: Setup<S>, c: Core<S>, hand: multiset<Message>)
    requires Keeps(x, c, hand, Entries) && Keeps(x, c, hand, Settlements) && Keeps(x, c, hand, Parkings)
    requires Keeps(x, c, hand, Transitions) && Keeps(x, c, hand, Reasons)
    ensures Balanced(x, c, hand)
  {
  }

  /** An account in balance: what came in went out or waits. */
  lemma {:induction false} AccountStays(log: seq<Happening>, h: Happening, entered: Happening -> multiset<Message>,
                                        left: Happening -> multiset<Message>, waiting: multiset<Message>, waiting': multiset<Message>)
    requires Sum(log, entered) == Sum(log, left) + waiting && waiting' + left(h) == waiting + entered(h)
    ensures Sum(log + [h], entered) == Sum(log + [h], left) + waiting'
  {
    SumLast(log, h, entered);
    SumLast(log, h, left);
    Shuffle(Sum(log, left), waiting, entered(h), waiting', left(h));
  }

  lemma Shuffle(a: multiset<Message>, b: multiset<Message>, c: multiset<Message>, d: multiset<Message>, e: multiset<Message>)
    requires d + e == b + c
    ensures (a + b) + c == (a + e) + d
  {
    assert (a + b) + c == a + (b + c);
    assert a + (d + e) == (a + e) + d;
  }

  /** What the books must see of one happening. */
  ghost predicate Booked<S(!new)>(x: Setup<S>, c: Core<S>, hand: multiset<Message>, h: Happening, d: Core<S>, hand': multiset<Message>) {
    && d.log == c.log + [h] && Moved(c, hand, h, d, hand') && Explained(x, c, h) && d.queue.maxSize == c.queue.maxSize
    && d.state == if h.Ran? then x.table.next(c.state, h.m) else if h.Acted? then x.table.acted(c.state, h.m) else c.state
  }

  /** It moves messages between queue, hand and list as it says. */
  ghost predicate Moved<S(!new)>(c: Core<S>, hand: multiset<Message>, h: Happening, d: Core<S>, hand': multiset<Message>) {
    && InQueue(d.queue) + PoppedBy(h) == InQueue(c.queue) + EnteredBy(h)
    && (OnList(d.list.ops, Whole) + hand') + SettledBy(h) == (OnList(c.list.ops, Whole) + hand) + PoppedBy(h)
    && OnList(d.list.ops, Actions) + ActedBy(h) == OnList(c.list.ops, Actions) + ParkedBy(h)
  }

  lemma {:induction false} AccountsStay<S(!new)>(x: Setup<S>, c: Core<S>, hand: multiset<Message>, h: Happening, d: Core<S>,
      hand': multiset<Message>)
    requires Keeps(x, c, hand, Entries) && Keeps(x, c, hand, Settlements) && Keeps(x, c, hand, Parkings)
    requires d.log == c.log + [h] && Moved(c, hand, h, d, hand')
    ensures Keeps(x, d, hand', Entries) && Keeps(x, d, hand', Settlements) && Keeps(x, d, hand', Parkings)
  {
    AccountStays(c.log, h, EnteredBy, PoppedBy, InQueue(c.queue), InQueue(d.queue));
    AccountStays(c.log, h, PoppedBy, SettledBy, OnList(c.list.ops, Whole) + hand, OnList(d.list.ops, Whole) + hand');
    AccountStays(c.log, h, ParkedBy, ActedBy, OnList(c.list.ops, Actions), OnList(d.list.ops, Actions));
  }

  lemma {:induction false} ReasonsStay<S(!new)>(x: Setup<S>, bound: int, log: seq<Happening>, h: Happening)
    requires forall i {:trigger Justified(x, bound, log, i)} :: 0 <= i < |log| ==> Justified(x, bound, log, i)
    requires Reason(x, bound, StateAfter(x, log), h)
    ensures forall i {:trigger Justified(x, bound, log + [h], i)} :: 0 <= i <= |log| ==> Justified(x, bound, log + [h], i)
  {
    assert (log + [h])[..|log|] == log;
    forall i | 0 <= i <= |log| ensures Justified(x, bound, log + [h], i) {
      if i < |log| {
        assert Justified(x, bound, log, i);
        assert (log + [h])[..i] == log[..i];
      }
    }
  }

  lemma StateOfLast<S(!new)>(x: Setup<S>, log: seq<Happening>, h: Happening)
    ensures StateAfter(x, log + [h]) ==
      if h.Ran? then x.table.next(StateAfter(x, log), h.m)
      else if h.Acted? then x.table.acted(StateAfter(x, log), h.m) else StateAfter(x, log)
  {
    assert (log + [h])[..|log|] == log;
  }

  /** One happening, booked. */
  lemma {:induction false} HappeningKeepsBooks<S(!new)>(x: Setup<S>, c: Core<S>, hand: multiset<Message>, h: Happening, d: Core<S>,
      hand': multiset<Message>)
    requires Balanced(x, c, hand) && Booked(x, c, hand, h, d, hand')
    ensures Balanced(x, d, hand')
  {
    Open(x, c, hand);
    AccountsStay(x, c, hand, h, d, hand');
    ReasonsStay(x, c.queue.maxSize, c.log, h);
    StateOfLast(x, c.log, h);
    Close(x, d, hand');
  }

  /** No happening: messages move between hand and list only. */
  lemma {:induction false} QuietKeepsBooks<S(!new)>(x: Setup<S>, c: Core<S>, hand: multiset<Message>, list: Array, hand': multiset<Message>)
    requires Balanced(x, c, hand) && OnList(list.ops, Whole) + hand' == OnList(c.list.ops, Whole) + hand
    requires OnList(list.ops, Actions) == OnList(c.list.ops, Actions)
    ensures Balanced(x, c.(list := list), hand')
  {
    Open(x, c, hand);
    Close(x, c.(list := list), hand');
  }

  /** The list without what fires. */
  ghost predicate Without(list: Array, op: Op, rest: Array) {
    && OnList(list.ops, Whole) == OnList(rest.ops, Whole) + IfOf(Whole)(op)
    && OnList(list.ops, Actions) == OnList(rest.ops, Actions) + IfOf(Actions)(op)
  }

  lemma {:induction false} ActionsKeepBooks<S(!new)>(x: Setup<S>, c: Core<S>, rest: Array, op: Op)
    requires Balanced(x, c, multiset{}) && Without(c.list, op, rest) && op.kind.Actions?
    ensures Balanced(x, Fire(x, c.(list := rest), op), multiset{})
  {
    HappeningKeepsBooks(x, c, multiset{}, Acted(op.msg), Fire(x, c.(list := rest), op), multiset{});
  }

  lemma {:induction false} RowKeepsBooks<S(!new)>(x: Setup<S>, c: Core<S>, rest: Array, op: Op)
    requires Balanced(x, c, multiset{}) && Without(c.list, op, rest) && op.kind.Whole? && x.table.ready(c.state, op.msg)
    ensures Balanced(x, Fire(x, c.(list := rest), op), multiset{})
  {
    HappeningKeepsBooks(x, c, multiset{}, Happening.Ran(op.msg), Fire(x, c.(list := rest), op), multiset{});
  }

  lemma {:induction false} StallKeepsBooks<S(!new)>(x: Setup<S>, c: Core<S>, rest: Array, op: Op)
    requires Balanced(x, c, multiset{}) && Without(c.list, op, rest) && op.kind.Whole? && !x.table.ready(c.state, op.msg)
    ensures Balanced(x, Fire(x, c.(list := rest), op), multiset{})
  {
    var queue := QueueModel.PushBack(c.queue, op.msg, NonReady, true);
    var d := c.(list := rest, queue := queue, log := c.log + [Requeued(op.msg)]);
    assert Fire(x, c.(list := rest), op) == d;
    PushedQueue(c.queue, op.msg, true);
    HappeningKeepsBooks(x, c, multiset{}, Requeued(op.msg), d, multiset{});
  }

  /** What fires is off the list; everything else is as before. */
  lemma {:induction false} FireKeepsBooks<S(!new)>(x: Setup<S>, c: Core<S>, rest: Array, op: Op)
    requires Balanced(x, c, multiset{}) && Without(c.list, op, rest)
    ensures Balanced(x, Fire(x, c.(list := rest), op), multiset{})
  {
    if op.kind.Actions? { ActionsKeepBooks(x, c, rest, op); }
    else if x.table.ready(c.state, op.msg) { RowKeepsBooks(x, c, rest, op); }
    else { StallKeepsBooks(x, c, rest, op); }
  }

  lemma {:induction false} ArrivalKeepsBooks<S(!new)>(x: Setup<S>, c: Core<S>, queue: Queue, m: Message)
    requires Balanced(x, c, multiset{}) && queue.maxSize == c.queue.maxSize && InQueue(queue) == InQueue(c.queue) + multiset{m}
    ensures Balanced(x, c.(queue := queue, log := c.log + [Arrived(m)]), multiset{})
  {
    HappeningKeepsBooks(x, c, multiset{}, Arrived(m), c.(queue := queue, log := c.log + [Arrived(m)]), multiset{});
  }

  /** A scan that finds nothing keeps every message. */
  lemma {:induction false} FruitlessPopKeeps(o: Owner, q: Queue)
    requires GetFirstReady(o, q).0.Nothing?
    ensures InQueue(GetFirstReady(o, q).1) == InQueue(q) && GetFirstReady(o, q).1.maxSize == q.maxSize
  {
    if !(q.stateOnly && !q.dirty) { SumSame(ScannedTo(o, q, FirstHit(o, q, 0)), q.buffer, ItemOf); }
  }

  lemma {:induction false} ScannedWithout(o: Owner, q: Queue, k: nat)
    requires k < |q.buffer|
    ensures var scanned := ScannedTo(o, q, k);
      InQueue(q) == Sum(scanned[..k] + scanned[k + 1..], ItemOf) + multiset{q.buffer[k].item}
  {
    SumSame(ScannedTo(o, q, k), q.buffer, ItemOf);
    SumWithout(ScannedTo(o, q, k), k, ItemOf);
  }

  /** What a pop leaves: the queue without that message. */
  lemma {:induction false} PopTakesOne(g: Geometry, held: set<nat>, readiness: Message -> bool, q: Queue)
    requires GetFirstReady(OwnerOf(g, held, readiness), q).0.Item?
    ensures var (got, after) := GetFirstReady(OwnerOf(g, held, readiness), q);
      after.maxSize == q.maxSize && InQueue(q) == InQueue(after) + multiset{got.m} && |after.buffer| == |q.buffer| - 1
  {
    var o := OwnerOf(g, held, readiness);
    var k := FirstHit(o, q, 0);
    PopTakes(g, held, readiness, q);
    ScannedWithout(o, q, k);
    assert GetFirstReady(o, q) == Scan(o, q);
  }

  lemma {:induction false} PopBooks<S(!new)>(x: Setup<S>, c: Core<S>, queue: Queue, m: Message)
    requires Balanced(x, c, multiset{}) && queue.maxSize == c.queue.maxSize && InQueue(c.queue) == InQueue(queue) + multiset{m}
    ensures Balanced(x, c.(queue := queue, log := c.log + [Popped(m)]), multiset{m})
  {
    HappeningKeepsBooks(x, c, multiset{}, Popped(m), c.(queue := queue, log := c.log + [Popped(m)]), multiset{m});
  }

  lemma {:induction false} NoPopBooks<S(!new)>(x: Setup<S>, c: Core<S>, queue: Queue)
    requires Balanced(x, c, multiset{}) && queue.maxSize == c.queue.maxSize && InQueue(queue) == InQueue(c.queue)
    ensures Balanced(x, c.(queue := queue), multiset{})
  {
    Open(x, c, multiset{});
    Close(x, c.(queue := queue), multiset{});
  }

  /** What a pop has in hand. */
  function InHand(got: Got): multiset<Message> { if got.Item? then multiset{got.m} else multiset{} }

  lemma {:induction false} PopKeepsBooks<S(!new)>(x: Setup<S>, c: Core<S>)
    requires Balanced(x, c, multiset{})
    ensures Balanced(x, Pop(x, c).1, InHand(Pop(x, c).0))
  {
    var (got, d) := Pop(x, c);
    if got.Item? {
      PopTakesOne(x.g, HeldLines(x.g, c.list.ops), ReadyIn(x.table, c.state), c.queue);
      PopBooks(x, c, d.queue, got.m);
    } else {
      FruitlessPopKeeps(OwnerIn(x, c), c.queue);
      NoPopBooks(x, c, d.queue);
    }
  }

  lemma {:induction false} GoBackKeepsBooks<S(!new)>(x: Setup<S>, c: Core<S>, m: Message, queued: nat)
    requires Balanced(x, c, multiset{m}) && |c.queue.buffer| == queued - 1
    requires !x.table.admits(c.state, m) || !x.table.ready(c.state, m)
    ensures Balanced(x, GoBack(c, m, queued), multiset{})
  {
    if Refuses(c.queue, NonReady, false) {
      HappeningKeepsBooks(x, c, multiset{m}, Lost(m, queued), GoBack(c, m, queued), multiset{});
    } else {
      PushedQueue(c.queue, m, false);
      HappeningKeepsBooks(x, c, multiset{m}, Happening.PutBack(m), GoBack(c, m, queued), multiset{});
    }
  }

  /** A row runs at once. */
  lemma {:induction false} RanKeepsBooks<S(!new)>(x: Setup<S>, c: Core<S>, m: Message)
    requires Balanced(x, c, multiset{m}) && x.table.ready(c.state, m)
    ensures Balanced(x, c.(state := x.table.next(c.state, m), log := c.log + [Happening.Ran(m)]), multiset{})
  {
    HappeningKeepsBooks(x, c, multiset{m}, Happening.Ran(m),
                        c.(state := x.table.next(c.state, m), log := c.log + [Happening.Ran(m)]), multiset{});
  }

  /** A deferred message waits on the list. */
  lemma {:induction false} DeferKeepsBooks<S(!new)>(x: Setup<S>, c: Core<S>, m: Message)
    requires Balanced(x, c, multiset{m})
    ensures Balanced(x, c.(list := Enqueue(c.list, Whole, m)), multiset{})
  {
    EnqueueLists(x.g, c.list, Whole, m, m.addr);
    QuietKeepsBooks(x, c, multiset{m}, Enqueue(c.list, Whole, m), multiset{});
  }

  lemma {:induction false} ParkOneKeepsBooks<S(!new)>(x: Setup<S>, c: Core<S>, hand: multiset<Message>, p: Message)
    requires Balanced(x, c, hand)
    ensures Balanced(x, c.(list := Enqueue(c.list, Actions, p), log := c.log + [Happening.Parked(p)]), hand)
  {
    EnqueueLists(x.g, c.list, Actions, p, p.addr);
    HappeningKeepsBooks(x, c, hand, Happening.Parked(p),
                        c.(list := Enqueue(c.list, Actions, p), log := c.log + [Happening.Parked(p)]), hand);
  }

  // ---- everything an operation keeps ----------------------------------------------------------------

  datatype Part = Protocol | Listing | Skipping | Books

  ghost predicate Fits<S(!new)>(x: Setup<S>, c: Core<S>, p: Part) {
    match p
    case Protocol => ParksOnItsLine(x.g, x.table)
    case Listing => Fine(x.g, c.list)
    case Skipping => Rests(OwnerIn(x, c), c.queue)
    case Books => Balanced(x, c, multiset{})
  }

  /** The list keeps its promises and the interlock, the dirty bit is off only when a scan would find
      nothing, and the books balance. */
  ghost predicate Sound<S(!new)>(x: Setup<S>, c: Core<S>) { forall p {:trigger Fits(x, c, p)} :: Fits(x, c, p) }

  lemma Parts<S(!new)>(x: Setup<S>, c: Core<S>)
    requires Sound(x, c)
    ensures Fits(x, c, Protocol) && Fits(x, c, Listing) && Fits(x, c, Skipping) && Fits(x, c, Books)
  {
  }

  /** The accesses a row parks join a line with no whole message listed. */
  lemma {:induction false} ParkKeeps<S(!new)>(x: Setup<S>, c: Core<S>, parked: seq<Message>, addr: nat, hand: multiset<Message>)
    requires Fine(x.g, c.list) && NoWholeOn(x.g, c.list.ops, addr) && OnItsLine(x.g, parked, addr) && Balanced(x, c, hand)
    ensures var d := Park(c, parked);
      Fine(x.g, d.list) && Balanced(x, d, hand) && d.queue == c.queue && d.state == c.state
    decreases |parked|
  {
    if parked != [] {
      EnqueueQualifies(x.g, c.list, Actions, parked[0]);
      EnqueueLists(x.g, c.list, Actions, parked[0], addr);
      ParkOneKeepsBooks(x, c, hand, parked[0]);
      ParkKeeps(x, c.(list := Enqueue(c.list, Actions, parked[0]), log := c.log + [Happening.Parked(parked[0])]), parked[1..], addr, hand);
    }
  }

  lemma {:induction false} RunNowKeeps<S(!new)>(x: Setup<S>, c: Core<S>, m: Message)
    requires ParksOnItsLine(x.g, x.table) && Fine(x.g, c.list) && c.queue.dirty && Balanced(x, c, multiset{m})
    requires !LineHasOp(x.g, c.list.ops, m.addr) && x.table.ready(c.state, m)
    ensures Sound(x, RunNow(x, c, m))
  {
    var parked := x.table.parks(c.state, m);
    assert OnItsLine(x.g, parked, m.addr);
    ParkKeeps(x, c, parked, m.addr, multiset{m});
    RanKeepsBooks(x, Park(c, parked), m);
  }

  lemma {:induction false} ProcessKeeps<S(!new)>(x: Setup<S>, c: Core<S>, m: Message, queued: nat)
    requires ParksOnItsLine(x.g, x.table) && Fine(x.g, c.list) && c.queue.dirty && Balanced(x, c, multiset{m})
    requires !LineHasOp(x.g, c.list.ops, m.addr) && |c.queue.buffer| == queued - 1
    ensures Sound(x, Process(x, c, m, queued).0)
  {
    if !x.table.admits(c.state, m) {
      GoBackKeepsBooks(x, c, m, queued);
    } else if x.table.defers(c.state, m) {
      EnqueueQualifies(x.g, c.list, Whole, m);
      DeferKeepsBooks(x, c, m);
    } else if !x.table.ready(c.state, m) {
      GoBackKeepsBooks(x, c, m, queued);
    } else {
      RunNowKeeps(x, c, m);
    }
  }

  /** What a pop of a sound controller leaves. */
  lemma {:induction false} PopKeeps<S(!new)>(x: Setup<S>, c: Core<S>)
    requires Sound(x, c)
    ensures var (got, d) := Pop(x, c);
      && (got.Nothing? ==> Sound(x, d))
      && (got.Item? ==> d.queue.dirty && !LineHasOp(x.g, c.list.ops, got.m.addr) && |d.queue.buffer| == |c.queue.buffer| - 1)
  {
    Parts(x, c);
    var held, readiness := HeldLines(x.g, c.list.ops), ReadyIn(x.table, c.state);
    PopKeepsBooks(x, c);
    if Pop(x, c).0.Nothing? {
      NothingSettles(x.g, held, readiness, c.queue);
    } else {
      PopTakesOne(x.g, held, readiness, c.queue);
      PopIsAScan(OwnerIn(x, c), c.queue);
      PopWeighs(x.g, held, readiness, c.queue);
      HeldLinesHaveOps(x.g, c.list.ops, Pop(x, c).0.m.addr);
    }
  }

  lemma {:induction false} TurnKeeps<S(!new)>(x: Setup<S>, c: Core<S>)
    requires Sound(x, c)
    ensures Sound(x, TakeTurn(x, c).0)
  {
    Parts(x, c);
    PopKeeps(x, c);
    PopKeepsBooks(x, c);
    var (got, d) := Pop(x, c);
    if got.Item? { ProcessKeeps(x, d, got.m, |c.queue.buffer|); }
  }

  lemma {:induction false} ProcessLogicKeeps<S(!new)>(x: Setup<S>, c: Core<S>)
    requires Sound(x, c)
    ensures Sound(x, ProcessLogic(x, c).0) && ProcessLogic(x, c).1.Ends()
    decreases Weight(c.queue.buffer)
  {
    Parts(x, c);
    TurnKeeps(x, c);
    TurnWeighs(x, c);
    if !TakeTurn(x, c).1.Ends() { ProcessLogicKeeps(x, TakeTurn(x, c).0); }
  }

  lemma FireMarks<S(!new)>(x: Setup<S>, c: Core<S>, op: Op)
    ensures var d := Fire(x, c, op);
      d.queue.dirty && d.list == c.list && c.queue.buffer <= d.queue.buffer && d.queue.maxSize == c.queue.maxSize
  {
  }

  /** The completions of a cycle: the list as ArrayPipeline has it, the queue only longer, and marked
      dirty if anything fired. */
  lemma {:induction false} CompleteDueList<S(!new)>(x: Setup<S>, c: Core<S>)
    ensures CompleteDue(x, c).list == CompleteAll(c.list) && c.queue.buffer <= CompleteDue(x, c).queue.buffer
    ensures CompleteDue(x, c) == c || CompleteDue(x, c).queue.dirty
    decreases |c.list.ops|
  {
    var k := FirstDue(c.list, 0);
    if k < |c.list.ops| {
      FireMarks(x, c.(list := CompleteAt(c.list, k)), c.list.ops[k]);
      CompleteDueList(x, CompleteOne(x, c, k));
    }
  }

  lemma WithoutOne(list: Array, k: nat)
    requires k < |list.ops|
    ensures Without(list, list.ops[k], CompleteAt(list, k)) && Without(list, list.ops[k], Remove(list, k))
  {
    SumWithout(list.ops, k, IfOf(Whole));
    SumWithout(list.ops, k, IfOf(Actions));
  }

  lemma {:induction false} OneKeepsBooks<S(!new)>(x: Setup<S>, c: Core<S>, k: nat)
    requires Balanced(x, c, multiset{}) && k < |c.list.ops|
    ensures Balanced(x, CompleteOne(x, c, k), multiset{}) && Balanced(x, FlushOne(x, c, k), multiset{})
  {
    WithoutOne(c.list, k);
    FireKeepsBooks(x, c, CompleteAt(c.list, k), c.list.ops[k]);
    FireKeepsBooks(x, c, Remove(c.list, k), c.list.ops[k]);
  }

  /** The books stay balanced. */
  lemma {:induction false} CompleteDueKeeps<S(!new)>(x: Setup<S>, c: Core<S>)
    requires Balanced(x, c, multiset{})
    ensures Balanced(x, CompleteDue(x, c), multiset{})
    decreases |c.list.ops|
  {
    var k := FirstDue(c.list, 0);
    if k < |c.list.ops| {
      OneKeepsBooks(x, c, k);
      CompleteDueKeeps(x, CompleteOne(x, c, k));
    }
  }

  /** The list with the admissions of the next cycle. */
  function Admitted<S(!new)>(c: Core<S>): Core<S> { c.(list := AdmitAll(c.list.(cycle := c.list.cycle + 1, used := 0))) }

  lemma {:induction false} AdmissionsKeep<S(!new)>(x: Setup<S>, c: Core<S>)
    requires Balanced(x, c, multiset{})
    ensures Balanced(x, Admitted(c), multiset{}) && OwnerIn(x, Admitted(c)) == OwnerIn(x, c)
  {
    AdmitKeepsWork(x.g, c.list.(cycle := c.list.cycle + 1, used := 0));
    QuietKeepsBooks(x, c, multiset{}, Admitted(c).list, multiset{});
  }

  lemma {:induction false} PipelineStepList<S(!new)>(x: Setup<S>, c: Core<S>)
    ensures var d := PipelineStep(x, c);
      && d.list == CycleStep(c.list.(cycle := c.list.cycle + 1)) && c.queue.buffer <= d.queue.buffer
      && (d == Admitted(c) || d.queue.dirty)
  {
    var next := c.list.(cycle := c.list.cycle + 1);
    assert c.list.(cycle := c.list.cycle + 1, used := 0) == next.(used := 0);
    CompleteDueList(x, Admitted(c));
  }

  /** A cycle of the list. */
  lemma {:induction false} PipelineStepKeeps<S(!new)>(x: Setup<S>, c: Core<S>)
    requires Sound(x, c)
    ensures Sound(x, PipelineStep(x, c))
  {
    Parts(x, c);
    var d := PipelineStep(x, c);
    PipelineStepList(x, c);
    CycleStepQualifies(x.g, c.list);
    AdmissionsKeep(x, c);
    CompleteDueKeeps(x, Admitted(c));
    assert Rests(OwnerIn(x, d), d.queue) by {
      if d.queue.dirty { DirtyRests(x, d); }
    }
  }

  lemma DirtyRests<S(!new)>(x: Setup<S>, c: Core<S>)
    requires c.queue.dirty
    ensures Rests(OwnerIn(x, c), c.queue)
  {
  }

  lemma {:induction false} FlushList<S(!new)>(x: Setup<S>, c: Core<S>, addr: nat)
    ensures Flush(x, c, addr).list == FlushLine(c.list, OnLine(x.g, addr)) && c.queue.buffer <= Flush(x, c, addr).queue.buffer
    ensures Flush(x, c, addr) == c || Flush(x, c, addr).queue.dirty
    decreases |c.list.ops|
  {
    var k := FirstOn(OnLine(x.g, addr), c.list.ops);
    if k < |c.list.ops| {
      FireMarks(x, c.(list := Remove(c.list, k)), c.list.ops[k]);
      FlushList(x, FlushOne(x, c, k), addr);
    }
  }

  lemma {:induction false} FlushKeepsBooks<S(!new)>(x: Setup<S>, c: Core<S>, addr: nat)
    requires Balanced(x, c, multiset{})
    ensures Balanced(x, Flush(x, c, addr), multiset{})
    decreases |c.list.ops|
  {
    var k := FirstOn(OnLine(x.g, addr), c.list.ops);
    if k < |c.list.ops| {
      OneKeepsBooks(x, c, k);
      FlushKeepsBooks(x, FlushOne(x, c, k), addr);
    }
  }

  /** A flush: nothing of the line is listed afterwards, and the queue is only longer. */
  lemma {:induction false} FlushIsSound<S(!new)>(x: Setup<S>, c: Core<S>, addr: nat)
    requires Sound(x, c)
    ensures var d := Flush(x, c, addr);
      && Sound(x, d) && d.list == FlushLine(c.list, OnLine(x.g, addr)) && !LineHasOp(x.g, d.list.ops, addr)
      && c.queue.buffer <= d.queue.buffer
  {
    Parts(x, c);
    FlushQualifies(x.g, c.list, OnLine(x.g, addr));
    FlushList(x, c, addr);
    FlushKeepsBooks(x, c, addr);
    if Flush(x, c, addr).queue.dirty { DirtyRests(x, Flush(x, c, addr)); }
  }

  lemma {:induction false} ArriveKeeps<S(!new)>(x: Setup<S>, c: Core<S>, m: Message)
    requires Sound(x, c)
    ensures Sound(x, Arrive(c, m)) && Sound(x, FromAbove(c, m)) && Sound(x, FromBelow(c, m))
  {
    Parts(x, c);
    var q := c.queue;
    PushedQueue(q, m, true);
    ArrivalKeepsBooks(x, c, QueueModel.PushBack(q, m, NonReady, true), m);
    InsertedQueue(q, m);
    ArrivalKeepsBooks(x, c, QueueModel.PushFrontOrdered(q, m), m);
  }

  /** A write-back joins the queue, and what waits on its line completes. */
  lemma {:induction false} ReplaceKeeps<S(!new)>(x: Setup<S>, c: Core<S>, writeBack: Message)
    requires Sound(x, c)
    ensures var d := Replace(x, c, writeBack);
      && Sound(x, d) && !LineHasOp(x.g, d.list.ops, writeBack.addr)
      && c.queue.buffer + [Element(writeBack, NonReady)] <= d.queue.buffer
  {
    Parts(x, c);
    ArriveKeeps(x, c, writeBack);
    FlushIsSound(x, Arrive(c, writeBack), writeBack.addr);
  }

  lemma {:induction false} CycleKeeps<S(!new)>(x: Setup<S>, c: Core<S>, i: Input)
    requires Sound(x, c)
    ensures Sound(x, Cycle(x, c, i).0) && Cycle(x, c, i).1.Ends()
  {
    Parts(x, c);
    PipelineStepKeeps(x, c);
    var d := PipelineStep(x, c);
    if i.above.Some? { ArriveKeeps(x, d, i.above.value); }
    var e := if i.above.Some? then FromAbove(d, i.above.value) else d;
    if i.below.Some? { ArriveKeeps(x, e, i.below.value); }
    var f := Intake(d, i.above, i.below);
    if i.writeBack.Some? { ReplaceKeeps(x, f, i.writeBack.value); }
    ProcessLogicKeeps(x, if i.writeBack.Some? then Replace(x, f, i.writeBack.value) else f);
  }

  // ---- runs ---------------------------------------------------------------------------------------

  function RunAll<S(!new)>(x: Setup<S>, c: Core<S>, inputs: seq<Input>): Core<S> {
    if inputs == [] then c else Cycle(x, RunAll(x, c, inputs[..|inputs| - 1]), inputs[|inputs| - 1]).0
  }

  lemma {:induction false} RunKeeps<S(!new)>(x: Setup<S>, c: Core<S>, inputs: seq<Input>)
    requires Sound(x, c)
    ensures Sound(x, RunAll(x, c, inputs))
    decreases |inputs|
  {
    Parts(x, c);
    if inputs != [] {
      RunKeeps(x, c, inputs[..|inputs| - 1]);
      CycleKeeps(x, RunAll(x, c, inputs[..|inputs| - 1]), inputs[|inputs| - 1]);
    }
  }

  function NewCore<S(!new)>(x: Setup<S>, queue: Queue, ports: nat, latency: nat): Core<S> {
    Core(queue, NewArray(ports, latency, 0), x.start, [])
  }

  lemma {:induction false} NewCoreIsSound<S(!new)>(x: Setup<S>, queue: Queue, ports: nat, latency: nat)
    requires ParksOnItsLine(x.g, x.table) && ports > 0 && latency > 0 && queue.buffer == [] && queue.dirty
    ensures Sound(x, NewCore(x, queue, ports, latency))
  {
    NewArrayIsFine(x.g, ports, latency);
    var c := NewCore(x, queue, ports, latency);
    Close(x, c, multiset{});
  }

  /** Conservation over whole runs of a new controller: what entered the queue, first or again, is in
      it or was popped; what was popped ran, went back, was lost, or waits whole, alone on its line; each
      access a row parked ran its actions or is listed; the protocol's state is that of the rows and
      parked actions that ran, in order, each row ready when it ran; and a message is lost only by a
      put-back to a queue that held more than its bound before the pop. */
  lemma {:induction false} NothingIsLostUnaccounted<S(!new)>(x: Setup<S>, queue: Queue, ports: nat, latency: nat, inputs: seq<Input>)
    requires ParksOnItsLine(x.g, x.table) && ports > 0 && latency > 0 && queue.buffer == [] && queue.dirty
    ensures var c := RunAll(x, NewCore(x, queue, ports, latency), inputs);
      && Entered(c.log) == PoppedAll(c.log) + InQueue(c.queue)
      && PoppedAll(c.log) == Settled(c.log) + OnList(c.list.ops, Whole) && WholeAlone(x.g, c.list.ops)
      && ParkedAll(c.log) == ActedAll(c.log) + OnList(c.list.ops, Actions)
      && c.state == StateAfter(x, c.log)
      && forall i :: 0 <= i < |c.log| ==> Justified(x, c.queue.maxSize, c.log, i)
  {
    NewCoreIsSound(x, queue, ports, latency);
    RunKeeps(x, NewCore(x, queue, ports, latency), inputs);
    var c := RunAll(x, NewCore(x, queue, ports, latency), inputs);
    Parts(x, c);
    Open(x, c, multiset{});
    assert Holds(x.g, c.list, Interlock);
  }
}

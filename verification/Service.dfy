/** What the controller's scheduling does for the messages it holds: whom a turn of processLogic serves,
    how the loop ends, what a cycle lets in, and when and in what order the accesses of the list
    complete. */
module ControllerService {
  import opened Wrappers
  import opened Sequences
  import opened Messages
  import opened Geometry
  import opened QueueModel
  import opened FirstReady
  import opened ArrayPipeline
  import opened ControllerModel
  import opened Scheduler
  import opened ControllerOrder

  // ---- turns --------------------------------------------------------------------------------------

  /** The controller could serve the message at k now: no access to its line is listed, no older ordered
      message to its line is queued in front of it, and its row is ready. */
  ghost predicate Servable<S(!new)>(x: Setup<S>, c: Core<S>, k: nat)
    requires k < |c.queue.buffer|
  {
    var e := c.queue.buffer[k];
    && (forall i :: 0 <= i < |c.list.ops| ==> x.g.Block(c.list.ops[i].msg.addr) != x.g.Block(e.item.addr))
    && !Gated(c.queue, k) && (e.status == Ready || x.table.ready(c.state, e.item))
  }

  lemma {:induction false} TurnIsServable<S(!new)>(x: Setup<S>, c: Core<S>, k: nat)
    requires k < |c.queue.buffer|
    ensures HasTurn(OwnerIn(x, c), c.queue, k) <==> Servable(x, c, k)
  {
    HeldLinesHaveOps(x.g, c.list.ops, c.queue.buffer[k].item.addr);
  }

  /** Nothing queued can be served. */
  ghost predicate NothingServable<S(!new)>(x: Setup<S>, c: Core<S>) {
    forall k :: 0 <= k < |c.queue.buffer| ==> !Servable(x, c, k)
  }

  /** A pop that finds nothing leaves nothing that could be served. */
  lemma {:induction false} IdleLeavesNothing<S(!new)>(x: Setup<S>, c: Core<S>)
    requires Sound(x, c) && Pop(x, c).0.Nothing?
    ensures NothingServable(x, Pop(x, c).1) && Pop(x, Pop(x, c).1).0.Nothing?
  {
    var d := Pop(x, c).1;
    var o := OwnerIn(x, d);
    PopKeeps(x, c);
    Parts(x, d);
    assert ScanGives(o, d.queue, Scan(o, d.queue));
    ScanServesTheFirstReady(o, d.queue);
    forall k | 0 <= k < |d.queue.buffer| ensures !Servable(x, d, k) { TurnIsServable(x, d, k); }
  }

  /** A pop takes the first message that can be served. */
  lemma {:induction false} PopServesTheFirst<S(!new)>(x: Setup<S>, c: Core<S>)
    requires Pop(x, c).0.Item?
    ensures exists k :: (0 <= k < |c.queue.buffer| && c.queue.buffer[k].item == Pop(x, c).0.m && Servable(x, c, k)
      && forall j :: 0 <= j < k ==> !Servable(x, c, j))
  {
    var o := OwnerIn(x, c);
    ScanServesTheFirstReady(o, c.queue);
    var (got, q) := Scan(o, c.queue);
    var k :| 0 <= k < |c.queue.buffer| && Served(o, c.queue, q, got.m, k);
    forall j | 0 <= j <= k ensures HasTurn(o, c.queue, j) <==> Servable(x, c, j) { TurnIsServable(x, c, j); }
  }

  /** What becomes of a popped message: put back if its request may not be admitted; else whole on the
      list if it waits for the array; else its row runs, parking its accesses, if it is ready; else it is
      put back as a stall. */
  ghost predicate Decided<S(!new)>(x: Setup<S>, c: Core<S>, m: Message, d: Core<S>, turn: Turn) {
    var (t, s) := (x.table, c.state);
    if !t.admits(s, m) then turn == NotAdmitted(m) && d.state == s && d.list == c.list
    else if t.defers(s, m) then
      turn == Turn.Deferred(m) && d.state == s && d.queue == c.queue && OnList(d.list.ops, Whole) == OnList(c.list.ops, Whole) + multiset{m}
    else if t.ready(s, m) then
      turn == Turn.Ran(m) && d.state == t.next(s, m) && d.queue == c.queue
      && OnList(d.list.ops, Actions) == OnList(c.list.ops, Actions) + multiset(t.parks(s, m))
    else (turn == Stalled(m) || turn == Aborted(m)) && d.state == s && d.list == c.list
  }

  lemma FirstAndRest(a: multiset<Message>, ms: seq<Message>)
    requires ms != []
    ensures (a + multiset{ms[0]}) + multiset(ms[1..]) == a + multiset(ms)
  {
    assert ms == [ms[0]] + ms[1..];
  }

  lemma {:induction false} ParkLists<S(!new)>(x: Setup<S>, c: Core<S>, parked: seq<Message>)
    ensures OnList(Park(c, parked).list.ops, Actions) == OnList(c.list.ops, Actions) + multiset(parked)
    decreases |parked|
  {
    if parked != [] {
      EnqueueLists(x.g, c.list, Actions, parked[0], parked[0].addr);
      ParkLists(x, c.(list := Enqueue(c.list, Actions, parked[0]), log := c.log + [Happening.Parked(parked[0])]), parked[1..]);
      FirstAndRest(OnList(c.list.ops, Actions), parked);
    }
  }

  lemma {:induction false} ProcessDecides<S(!new)>(x: Setup<S>, c: Core<S>, m: Message, queued: nat)
    ensures var (d, turn) := Process(x, c, m, queued); Decided(x, c, m, d, turn)
  {
    if x.table.admits(c.state, m) {
      if x.table.defers(c.state, m) {
        EnqueueLists(x.g, c.list, Whole, m, m.addr);
      } else if x.table.ready(c.state, m) {
        ParkLeavesTheQueue(c, x.table.parks(c.state, m));
        ParkLists(x, c, x.table.parks(c.state, m));
      }
    }
  }

  /** A turn serves the first message that can be served, as the table decides, or finds none. */
  lemma {:induction false} TurnServesTheFirst<S(!new)>(x: Setup<S>, c: Core<S>)
    requires Sound(x, c)
    ensures var (d, turn) := TakeTurn(x, c);
      if turn.Idle? then NothingServable(x, d)
      else
        && (exists k :: 0 <= k < |c.queue.buffer| && c.queue.buffer[k].item == turn.m && Servable(x, c, k)
              && forall j :: 0 <= j < k ==> !Servable(x, c, j))
        && Decided(x, Pop(x, c).1, turn.m, d, turn)
  {
    var (got, d) := Pop(x, c);
    if got.Item? {
      PopServesTheFirst(x, c);
      ProcessDecides(x, d, got.m, |c.queue.buffer|);
    } else {
      IdleLeavesNothing(x, c);
    }
  }

  // ---- the loop -----------------------------------------------------------------------------------

  /** How processLogic leaves the controller: with nothing that can be served; or at a request that may
      not be admitted in the state it leaves; or aborted, at a stall the queue has no room for. */
  ghost predicate ServedOut<S(!new)>(x: Setup<S>, d: Core<S>, last: Turn) {
    match last
    case Idle => NothingServable(x, d)
    case NotAdmitted(m) => !x.table.admits(d.state, m)
    case Aborted(m) => x.table.admits(d.state, m) && !x.table.ready(d.state, m) && d.queue.maxSize != -1 && |d.queue.buffer| >= d.queue.maxSize
    case _ => false
  }

  /** processLogic goes on until it is served out: rows that run and messages that are deferred or stalled
      do not end it. */
  lemma {:induction false} LogicServesOut<S(!new)>(x: Setup<S>, c: Core<S>)
    requires Sound(x, c)
    ensures var (d, last) := ProcessLogic(x, c); ServedOut(x, d, last)
    decreases Weight(c.queue.buffer)
  {
    TurnWeighs(x, c);
    TurnKeeps(x, c);
    TurnServesTheFirst(x, c);
    var (d, turn) := TakeTurn(x, c);
    if !turn.Ends() { LogicServesOut(x, d); }
  }

  lemma {:induction false} IntakeIsSound<S(!new)>(x: Setup<S>, c: Core<S>, i: Input)
    requires Sound(x, c)
    ensures Sound(x, Scheduler.Intake(c, i.above, i.below))
  {
    var d := if i.above.Some? then FromAbove(c, i.above.value) else c;
    if i.above.Some? { ArriveKeeps(x, c, i.above.value); }
    if i.below.Some? { ArriveKeeps(x, d, i.below.value); }
  }

  /** And so does every cycle, whatever completes, comes in or is evicted in it. */
  lemma {:induction false} CycleServesOut<S(!new)>(x: Setup<S>, c: Core<S>, i: Input)
    requires Sound(x, c)
    ensures var (d, last) := Cycle(x, c, i); ServedOut(x, d, last)
  {
    PipelineStepKeeps(x, c);
    var d := PipelineStep(x, c);
    IntakeIsSound(x, d, i);
    var e := Scheduler.Intake(d, i.above, i.below);
    if i.writeBack.Some? { ReplaceKeeps(x, e, i.writeBack.value); }
    LogicServesOut(x, if i.writeBack.Some? then Replace(x, e, i.writeBack.value) else e);
  }

  // ---- what a cycle lets in -----------------------------------------------------------------------

  lemma FireLetsNothingIn<S(!new)>(x: Setup<S>, c: Core<S>, op: Op)
    ensures Arrivals(Fire(x, c, op).log) == Arrivals(c.log)
  {
    LogLast(c.log, Fire(x, c, op).log[|c.log|]);
  }

  lemma {:induction false} CompletionsLetNothingIn<S(!new)>(x: Setup<S>, c: Core<S>)
    ensures Arrivals(CompleteDue(x, c).log) == Arrivals(c.log)
    decreases |c.list.ops|
  {
    var k := FirstDue(c.list, 0);
    if k < |c.list.ops| {
      FireLetsNothingIn(x, c.(list := CompleteAt(c.list, k)), c.list.ops[k]);
      FireMarks(x, c.(list := CompleteAt(c.list, k)), c.list.ops[k]);
      CompletionsLetNothingIn(x, CompleteOne(x, c, k));
    }
  }

  lemma {:induction false} FlushLetsNothingIn<S(!new)>(x: Setup<S>, c: Core<S>, addr: nat)
    ensures Arrivals(Scheduler.Flush(x, c, addr).log) == Arrivals(c.log)
    decreases |c.list.ops|
  {
    var k := FirstOn(OnLine(x.g, addr), c.list.ops);
    if k < |c.list.ops| {
      FireLetsNothingIn(x, c.(list := Remove(c.list, k)), c.list.ops[k]);
      FireMarks(x, c.(list := Remove(c.list, k)), c.list.ops[k]);
      FlushLetsNothingIn(x, FlushOne(x, c, k), addr);
    }
  }

  lemma {:induction false} ParkLetsNothingIn<S(!new)>(c: Core<S>, parked: seq<Message>)
    ensures Arrivals(Park(c, parked).log) == Arrivals(c.log) && Park(c, parked).list.cycle == c.list.cycle
    decreases |parked|
  {
    if parked != [] {
      LogLast(c.log, Happening.Parked(parked[0]));
      AdmitAllFrame(Append(c.list, Actions, parked[0]));
      ParkLetsNothingIn(c.(list := Enqueue(c.list, Actions, parked[0]), log := c.log + [Happening.Parked(parked[0])]), parked[1..]);
    }
  }

  lemma GoBackLetsNothingIn<S(!new)>(c: Core<S>, m: Message, queued: nat)
    ensures Arrivals(GoBack(c, m, queued).log) == Arrivals(c.log)
  {
    LogLast(c.log, GoBack(c, m, queued).log[|c.log|]);
  }

  lemma {:induction false} RunNowLetsNothingIn<S(!new)>(x: Setup<S>, c: Core<S>, m: Message)
    ensures Arrivals(RunNow(x, c, m).log) == Arrivals(c.log) && RunNow(x, c, m).list.cycle == c.list.cycle
  {
    var d := Park(c, x.table.parks(c.state, m));
    ParkLetsNothingIn(c, x.table.parks(c.state, m));
    LogLast(d.log, Happening.Ran(m));
  }

  lemma {:induction false} ProcessLetsNothingIn<S(!new)>(x: Setup<S>, c: Core<S>, m: Message, queued: nat)
    ensures Arrivals(Process(x, c, m, queued).0.log) == Arrivals(c.log) && Process(x, c, m, queued).0.list.cycle == c.list.cycle
  {
    GoBackLetsNothingIn(c, m, queued);
    RunNowLetsNothingIn(x, c, m);
    AdmitAllFrame(Append(c.list, Whole, m));
  }

  lemma {:induction false} TurnLetsNothingIn<S(!new)>(x: Setup<S>, c: Core<S>)
    ensures Arrivals(TakeTurn(x, c).0.log) == Arrivals(c.log) && TakeTurn(x, c).0.list.cycle == c.list.cycle
  {
    var (got, d) := Pop(x, c);
    if got.Item? {
      LogLast(c.log, Popped(got.m));
      ProcessLetsNothingIn(x, d, got.m, |c.queue.buffer|);
    }
  }

  lemma {:induction false} LogicLetsNothingIn<S(!new)>(x: Setup<S>, c: Core<S>)
    ensures Arrivals(ProcessLogic(x, c).0.log) == Arrivals(c.log) && ProcessLogic(x, c).0.list.cycle == c.list.cycle
    decreases Weight(c.queue.buffer)
  {
    TurnWeighs(x, c);
    TurnLetsNothingIn(x, c);
    if !TakeTurn(x, c).1.Ends() { LogicLetsNothingIn(x, TakeTurn(x, c).0); }
  }

  /** The message from below gets in unless it is a demand request and the queue, with what came from above,
      is at its bound. */
  predicate HasRoom(q: Queue, above: Option<Message>, below: Option<Message>) {
    below.None? || !below.value.IsDemandRequest() || q.maxSize == -1
    || |q.buffer| + (if above.Some? then 1 else 0) < q.maxSize
  }

  function One(m: Option<Message>): seq<Message> { if m.Some? then [m.value] else [] }

  lemma {:induction false} StepIsOneCycle(a: Array)
    ensures CycleStep(a).cycle == a.cycle
  {
    AdmitAllFrame(a.(used := 0));
    CompleteAllCompletes(AdmitAll(a.(used := 0)));
  }

  lemma {:induction false} PipelineLetsNothingIn<S(!new)>(x: Setup<S>, c: Core<S>)
    ensures Arrivals(PipelineStep(x, c).log) == Arrivals(c.log) && PipelineStep(x, c).list.cycle == c.list.cycle + 1
  {
    PipelineStepList(x, c);
    StepIsOneCycle(c.list.(cycle := c.list.cycle + 1));
    CompletionsLetNothingIn(x, Admitted(c));
    assert Admitted(c).log == c.log;
  }

  lemma {:induction false} IntakeLetsIn<S(!new)>(c: Core<S>, above: Option<Message>, below: Option<Message>)
    ensures Scheduler.Intake(c, above, below).list == c.list
    ensures Arrivals(Scheduler.Intake(c, above, below).log) == Arrivals(c.log) + One(above) + (if HasRoom(c.queue, above, below) then One(below) else [])
  {
    var d := if above.Some? then FromAbove(c, above.value) else c;
    if above.Some? { LogLast(c.log, Arrived(above.value)); }
    if below.Some? { LogLast(d.log, Arrived(below.value)); }
  }

  lemma {:induction false} ReplaceLetsIn<S(!new)>(x: Setup<S>, c: Core<S>, m: Message)
    ensures Arrivals(Replace(x, c, m).log) == Arrivals(c.log) + [m] && Replace(x, c, m).list.cycle == c.list.cycle
  {
    LogLast(c.log, Arrived(m));
    FlushLetsNothingIn(x, Scheduler.Arrive(c, m), m.addr);
    FlushList(x, Scheduler.Arrive(c, m), m.addr);
    FlushTakesTheLine(c.list, OnLine(x.g, m.addr));
  }

  /** A cycle lets in the message from above, the one from below if there is room for it, and the
      write-back, in this order, and nothing else; and it is one cycle. */
  lemma {:induction false} CycleLetsIn<S(!new)>(x: Setup<S>, c: Core<S>, i: Input)
    ensures Arrivals(Cycle(x, c, i).0.log)
      == Arrivals(c.log) + One(i.above) + (if HasRoom(PipelineStep(x, c).queue, i.above, i.below) then One(i.below) else [])
         + One(i.writeBack)
    ensures Cycle(x, c, i).0.list.cycle == c.list.cycle + 1
  {
    var d := PipelineStep(x, c);
    PipelineLetsNothingIn(x, c);
    IntakeLetsIn(d, i.above, i.below);
    var e := Scheduler.Intake(d, i.above, i.below);
    if i.writeBack.Some? { ReplaceLetsIn(x, e, i.writeBack.value); }
    var f := if i.writeBack.Some? then Replace(x, e, i.writeBack.value) else e;
    assert Arrivals(f.log) == Arrivals(e.log) + One(i.writeBack) && f.list.cycle == c.list.cycle + 1;
    LogicLetsNothingIn(x, f);
    assert Cycle(x, c, i).0 == ProcessLogic(x, f).0;
  }

  // ---- when accesses complete -----------------------------------------------------------------------

  lemma {:induction false} CyclesAreCounted<S(!new)>(x: Setup<S>, c: Core<S>, inputs: seq<Input>)
    ensures Scheduler.RunAll(x, c, inputs).list.cycle == c.list.cycle + |inputs|
    decreases |inputs|
  {
    if inputs != [] {
      CyclesAreCounted(x, c, inputs[..|inputs| - 1]);
      CycleLetsIn(x, Scheduler.RunAll(x, c, inputs[..|inputs| - 1]), inputs[|inputs| - 1]);
    }
  }

  /** Over every run of a new controller, after n cycles nothing listed is overdue: an access in the array
      has yet to complete, within its latency; one that waits has waited no longer than those ahead of it
      justify. */
  lemma {:induction false} ListIsOnTime<S(!new)>(x: Setup<S>, queue: Queue, ports: nat, latency: nat, inputs: seq<Input>)
    requires ParksOnItsLine(x.g, x.table) && ports > 0 && latency > 0 && queue.buffer == [] && queue.dirty
    ensures var (a, n) := (Scheduler.RunAll(x, NewCore(x, queue, ports, latency), inputs).list, |inputs|);
      && a.cycle == n && a.ports > 0
      && (forall i :: 0 <= i < |a.ops| && a.ops[i].admitted ==> n < a.ops[i].ready <= n + a.latency && AdmittedPromptly(a, a.ops[i].id))
      && (forall i :: 0 <= i < |a.ops| && !a.ops[i].admitted ==>
            a.ops[i].id in a.notes && n <= a.notes[a.ops[i].id].arrival + a.notes[a.ops[i].id].ahead / a.ports)
  {
    var c := NewCore(x, queue, ports, latency);
    NewCoreIsSound(x, queue, ports, latency);
    RunKeeps(x, c, inputs);
    var r := Scheduler.RunAll(x, c, inputs);
    Parts(x, r);
    CyclesAreCounted(x, c, inputs);
    var a := r.list;
    assert ControllerModel.Holds(x.g, a, Scheduling);
    OnTimeInCycle(a);
  }

  lemma {:induction false} OnTimeInCycle(a: Array)
    requires InCycle(a)
    ensures forall i :: 0 <= i < |a.ops| && a.ops[i].admitted ==> a.cycle < a.ops[i].ready <= a.cycle + a.latency && AdmittedPromptly(a, a.ops[i].id)
    ensures forall i :: 0 <= i < |a.ops| && !a.ops[i].admitted ==>
      a.ops[i].id in a.notes && a.cycle <= a.notes[a.ops[i].id].arrival + a.notes[a.ops[i].id].ahead / a.ports
  {
    CycleRules(a);
    Rules(a);
    forall i | 0 <= i < |a.ops| && a.ops[i].admitted
      ensures a.cycle < a.ops[i].ready <= a.cycle + a.latency && AdmittedPromptly(a, a.ops[i].id)
    {
      assert OpFine(a, i);
    }
    forall i | 0 <= i < |a.ops| && !a.ops[i].admitted
      ensures a.ops[i].id in a.notes && a.cycle <= a.notes[a.ops[i].id].arrival + a.notes[a.ops[i].id].ahead / a.ports
    {
      WaitingIsBounded(a, i);
    }
  }

  // ---- in what order accesses complete ---------------------------------------------------------------

  function MessagesOf(ops: seq<Op>): (ms: seq<Message>)
    ensures |ms| == |ops| && forall i :: 0 <= i < |ms| ==> ms[i] == ops[i].msg
  {
    seq(|ops|, i requires 0 <= i < |ops| => ops[i].msg)
  }

  /** From c to d exactly these accesses fired, in this order. */
  ghost predicate FiredInOrder<S>(c: Core<S>, d: Core<S>, ops: seq<Op>) {
    c.log <= d.log && In(d.log[|c.log|..]) == MessagesOf(ops)
  }

  lemma InAfter(h: Happening, hs: seq<Happening>)
    ensures In([h] + hs) == [h.m] + In(hs)
  {
  }

  lemma TailOf(before: seq<Happening>, h: Happening, after: seq<Happening>)
    requires before + [h] <= after
    ensures after[|before|..] == [h] + after[|before| + 1..] && before <= after
  {
    assert after[|before|] == (before + [h])[|before|];
  }

  lemma {:induction false} FireOneMore<S(!new)>(x: Setup<S>, c: Core<S>, list: Array, op: Op, d: Core<S>, ops: seq<Op>)
    requires FiredInOrder(Fire(x, c.(list := list), op), d, ops)
    ensures FiredInOrder(c, d, [op] + ops)
  {
    var b := Fire(x, c.(list := list), op);
    var h := b.log[|c.log|];
    assert b.log == c.log + [h] && h.m == op.msg;
    TailOf(c.log, h, d.log);
    InAfter(h, d.log[|b.log|..]);
    assert MessagesOf([op] + ops) == [op.msg] + MessagesOf(ops);
  }

  /** A flush completes exactly the accesses to the line, oldest first, and leaves the others listed. */
  lemma {:induction false} FlushFiresTheLine<S(!new)>(x: Setup<S>, c: Core<S>, addr: nat)
    ensures var (d, on) := (Scheduler.Flush(x, c, addr), OnLine(x.g, addr));
      d.list.ops == Filter(c.list.ops, ArrayPipeline.To(on, false)) && FiredInOrder(c, d, Filter(c.list.ops, ArrayPipeline.To(on, true)))
    decreases |c.list.ops|
  {
    var on := OnLine(x.g, addr);
    var k := FirstOn(on, c.list.ops);
    FlushList(x, c, addr);
    FlushTakesTheLine(c.list, on);
    if k < |c.list.ops| {
      TakeOutFirst(c.list.ops, k, ArrayPipeline.To(on, true), ArrayPipeline.To(on, false));
      FireMarks(x, c.(list := Remove(c.list, k)), c.list.ops[k]);
      FlushFiresTheLine(x, FlushOne(x, c, k), addr);
      FireOneMore(x, c, Remove(c.list, k), c.list.ops[k], Scheduler.Flush(x, c, addr), Filter(Remove(c.list, k).ops, ArrayPipeline.To(on, true)));
    } else {
      FilterNone(c.list.ops, ArrayPipeline.To(on, true));
    }
  }

  lemma {:induction false} FirstDueIsFirst(a: Array, k: nat)
    requires k == FirstDue(a, 0) < |a.ops|
    ensures Filter(a.ops, DueAt(a.cycle, true)) == [a.ops[k]] + Filter(CompleteAt(a, k).ops, DueAt(a.cycle, true))
  {
    forall i | 0 <= i < k ensures !DueAt(a.cycle, true)(a.ops[i]) { assert !Due(a, i); }
    TakeOutFirst(a.ops, k, DueAt(a.cycle, true), DueAt(a.cycle, false));
  }

  lemma {:induction false} NoneDue(a: Array)
    requires FirstDue(a, 0) == |a.ops|
    ensures Filter(a.ops, DueAt(a.cycle, true)) == []
  {
    forall i | 0 <= i < |a.ops| ensures !DueAt(a.cycle, true)(a.ops[i]) { assert !Due(a, i); }
    FilterNone(a.ops, DueAt(a.cycle, true));
  }

  lemma {:induction false} DueFireInOrder<S(!new)>(x: Setup<S>, c: Core<S>)
    ensures FiredInOrder(c, CompleteDue(x, c), Filter(c.list.ops, DueAt(c.list.cycle, true)))
    decreases |c.list.ops|
  {
    var k := FirstDue(c.list, 0);
    if k < |c.list.ops| {
      FireMarks(x, c.(list := CompleteAt(c.list, k)), c.list.ops[k]);
      DueFireInOrder(x, CompleteOne(x, c, k));
      FireOneMore(x, c, CompleteAt(c.list, k), c.list.ops[k], CompleteDue(x, c), Filter(CompleteAt(c.list, k).ops, DueAt(c.list.cycle, true)));
      FirstDueIsFirst(c.list, k);
    } else {
      NoneDue(c.list);
    }
  }

  /** A cycle completes exactly the accesses due in it, oldest first. */
  lemma {:induction false} CompletionsFireTheDue<S(!new)>(x: Setup<S>, c: Core<S>)
    ensures var (d, now) := (CompleteDue(x, c), c.list.cycle);
      d.list.ops == Filter(c.list.ops, DueAt(now, false)) && FiredInOrder(c, d, Filter(c.list.ops, DueAt(now, true)))
  {
    CompleteDueList(x, c);
    CompletionTakesTheDue(c.list);
    DueFireInOrder(x, c);
  }
}

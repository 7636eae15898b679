/** The order in which a whole controller serves the requests of a line: every run of the scheduler is a
    run of the queue with its put-backs (PutBackOrder), event by event, so what is exact there is exact
    for the controller. */
module ControllerOrder {
  import opened Wrappers
  import opened Sequences
  import opened Messages
  import opened Geometry
  import opened QueueModel
  import opened ArrayPipeline
  import opened ControllerModel
  import opened Scheduler
  import Order = PutBackOrder

  // ---- what the controller does to its queue, event by event ----------------------------------------

  function EventsOfFire<S(!new)>(x: Setup<S>, c: Core<S>, op: Op): seq<Order.Event> {
    if op.kind.Actions? then [Order.Mark]
    else if x.table.ready(c.state, op.msg) then [Order.Leave(x.g.Block(op.msg.addr))] + [Order.Mark]
    else [Order.Return(x.g.Block(op.msg.addr), true)]
  }

  function EventsOfCompletions<S(!new)>(x: Setup<S>, c: Core<S>): seq<Order.Event>
    decreases |c.list.ops|
  {
    var k := FirstDue(c.list, 0);
    if k < |c.list.ops| then EventsOfFire(x, c, c.list.ops[k]) + EventsOfCompletions(x, CompleteOne(x, c, k)) else []
  }

  function EventsOfFlush<S(!new)>(x: Setup<S>, c: Core<S>, addr: nat): seq<Order.Event>
    decreases |c.list.ops|
  {
    var k := FirstOn(OnLine(x.g, addr), c.list.ops);
    if k < |c.list.ops| then EventsOfFire(x, c, c.list.ops[k]) + EventsOfFlush(x, FlushOne(x, c, k), addr) else []
  }

  function EventsOfIntake(i: Input): seq<Order.Event> {
    (if i.above.Some? then [Order.ArriveInOrder(i.above.value)] else [])
    + if i.below.Some? then [Order.Arrive(i.below.value, NonReady, !i.below.value.IsDemandRequest())] else []
  }

  function EventsOfReplacement<S(!new)>(x: Setup<S>, c: Core<S>, writeBack: Option<Message>): seq<Order.Event> {
    if writeBack.None? then []
    else [Order.Arrive(writeBack.value, NonReady, true)]
         + EventsOfFlush(x, Scheduler.Arrive(c, writeBack.value), writeBack.value.addr)
  }

  function EventsOfProcess<S(!new)>(x: Setup<S>, c: Core<S>, m: Message): seq<Order.Event> {
    if !x.table.admits(c.state, m) then [Order.Return(x.g.Block(m.addr), false)]
    else if x.table.defers(c.state, m) then []
    else if !x.table.ready(c.state, m) then [Order.Return(x.g.Block(m.addr), false)]
    else [Order.Leave(x.g.Block(m.addr))]
  }

  function EventsOfTurn<S(!new)>(x: Setup<S>, c: Core<S>): seq<Order.Event> {
    var (got, d) := Pop(x, c);
    [Order.Take(OwnerIn(x, c))] + if got.Item? then EventsOfProcess(x, d, got.m) else []
  }

  function EventsOfLogic<S(!new)>(x: Setup<S>, c: Core<S>): seq<Order.Event>
    decreases Weight(c.queue.buffer)
  {
    TurnWeighs(x, c);
    EventsOfTurn(x, c) + if TakeTurn(x, c).1.Ends() then [] else EventsOfLogic(x, TakeTurn(x, c).0)
  }

  function EventsOfCycle<S(!new)>(x: Setup<S>, c: Core<S>, i: Input): seq<Order.Event> {
    var d := PipelineStep(x, c);
    var e := Scheduler.Intake(d, i.above, i.below);
    ((EventsOfCompletions(x, Admitted(c)) + EventsOfIntake(i)) + EventsOfReplacement(x, e, i.writeBack))
    + EventsOfLogic(x, if i.writeBack.Some? then Replace(x, e, i.writeBack.value) else e)
  }

  function EventsOfRun<S(!new)>(x: Setup<S>, c: Core<S>, inputs: seq<Input>): seq<Order.Event> {
    if inputs == [] then []
    else
      var n := |inputs| - 1;
      EventsOfRun(x, c, inputs[..n]) + EventsOfCycle(x, Scheduler.RunAll(x, c, inputs[..n]), inputs[n])
  }

  // ---- runs of events -------------------------------------------------------------------------------

  ghost predicate Leads(g: Geometry, s: Order.Traffic, events: seq<Order.Event>, t: Order.Traffic) {
    Order.RunAll(g, s, events) == t && Order.AllProper(g, s, events)
  }

  lemma {:induction false} RunConcat(g: Geometry, s: Order.Traffic, a: seq<Order.Event>, b: seq<Order.Event>)
    ensures Order.RunAll(g, s, a + b) == Order.RunAll(g, Order.RunAll(g, s, a), b)
    decreases |b|
  {
    if b == [] {
      assert a + b == a;
    } else {
      var n := |b| - 1;
      assert (a + b)[..|a + b| - 1] == a + b[..n];
      RunConcat(g, s, a, b[..n]);
    }
  }

  lemma {:induction false} LeadsOn(g: Geometry, s: Order.Traffic, a: seq<Order.Event>, t: Order.Traffic, b: seq<Order.Event>, u: Order.Traffic)
    requires Leads(g, s, a, t) && Leads(g, t, b, u)
    ensures Leads(g, s, a + b, u)
  {
    RunConcat(g, s, a, b);
    forall i | 0 <= i < |a + b| ensures Order.Proper(g, Order.RunAll(g, s, (a + b)[..i]), (a + b)[i]) {
      if i < |a| {
        assert (a + b)[..i] == a[..i];
      } else {
        assert (a + b)[..i] == a + b[..i - |a|];
        RunConcat(g, s, a, b[..i - |a|]);
        assert Order.Proper(g, Order.RunAll(g, t, b[..i - |a|]), b[i - |a|]);
      }
    }
  }

  lemma LeadsNowhere(g: Geometry, s: Order.Traffic)
    ensures Leads(g, s, [], s)
  {
  }

  lemma LeadsOne(g: Geometry, s: Order.Traffic, e: Order.Event)
    requires Order.Proper(g, s, e)
    ensures Leads(g, s, [e], Order.Step(g, s, e))
  {
    assert [e][..0] == [] && Order.RunAll(g, s, []) == s;
  }

  // ---- what the queue's run sees of a controller ------------------------------------------------------

  function In(hs: seq<Happening>): (ms: seq<Message>)
    ensures |ms| == |hs| && forall i :: 0 <= i < |ms| ==> ms[i] == hs[i].m
  {
    seq(|hs|, i requires 0 <= i < |hs| => hs[i].m)
  }

  function Arrivals(log: seq<Happening>): seq<Message> { In(Filter(log, (h: Happening) => h.Arrived?)) }

  /** The messages that have left for good, in order. */
  function Departures(log: seq<Happening>): seq<Message> { In(Filter(log, (h: Happening) => h.Ran? || h.Lost?)) }

  lemma LogLast(log: seq<Happening>, h: Happening)
    ensures Arrivals(log + [h]) == Arrivals(log) + if h.Arrived? then [h.m] else []
    ensures Departures(log + [h]) == Departures(log) + if h.Ran? || h.Lost? then [h.m] else []
  {
    FilterLast(log, h, (h: Happening) => h.Arrived?);
    FilterLast(log, h, (h: Happening) => h.Ran? || h.Lost?);
  }

  /** The controller, with these messages out. */
  function Shadow<S>(c: Core<S>, out: map<nat, Message>): Order.Traffic {
    Order.Traffic(c.queue, Arrivals(c.log), out, Departures(c.log))
  }

  /** The messages out are those that wait whole on the list, by line. */
  ghost predicate Out(g: Geometry, ops: seq<Op>, out: map<nat, Message>) {
    && (forall i :: 0 <= i < |ops| && ops[i].kind.Whole? ==> g.Block(ops[i].msg.addr) in out && out[g.Block(ops[i].msg.addr)] == ops[i].msg)
    && (forall b :: b in out ==> WaitsWhole(g, ops, b))
  }

  ghost predicate WaitsWhole(g: Geometry, ops: seq<Op>, b: nat) {
    exists i :: 0 <= i < |ops| && ops[i].kind.Whole? && g.Block(ops[i].msg.addr) == b
  }

  lemma {:induction false} SameWorkOut(g: Geometry, a: seq<Op>, b: seq<Op>, out: map<nat, Message>)
    requires SameWork(a, b) && Out(g, a, out)
    ensures Out(g, b, out)
  {
    forall l | l in out ensures WaitsWhole(g, b, l) {
      assert WaitsWhole(g, a, l);
      var i :| 0 <= i < |a| && a[i].kind.Whole? && g.Block(a[i].msg.addr) == l;
      assert b[i].kind.Whole?;
    }
  }

  lemma {:induction false} RemovedOut(g: Geometry, ops: seq<Op>, k: nat, out: map<nat, Message>)
    requires k < |ops| && WholeAlone(g, ops) && Out(g, ops, out)
    ensures var b := g.Block(ops[k].msg.addr);
      var rest := ops[..k] + ops[k + 1..];
      if ops[k].kind.Whole? then b in out && out[b] == ops[k].msg && Out(g, rest, out - {b}) else Out(g, rest, out)
  {
    var b, rest := g.Block(ops[k].msg.addr), ops[..k] + ops[k + 1..];
    var after := if ops[k].kind.Whole? then out - {b} else out;
    forall i | 0 <= i < |rest| && rest[i].kind.Whole?
      ensures g.Block(rest[i].msg.addr) in after && after[g.Block(rest[i].msg.addr)] == rest[i].msg
    {
      var j := if i < k then i else i + 1;
      assert rest[i] == ops[j] && Apart(g, ops[k], ops[j]);
    }
    forall l | l in after ensures WaitsWhole(g, rest, l) {
      assert WaitsWhole(g, ops, l);
      var i :| 0 <= i < |ops| && ops[i].kind.Whole? && g.Block(ops[i].msg.addr) == l;
      assert rest[if i < k then i else i - 1] == ops[i];
    }
  }

  lemma {:induction false} AppendedOut(g: Geometry, ops: seq<Op>, o: Op, out: map<nat, Message>)
    requires Out(g, ops, out) && (o.kind.Whole? ==> g.Block(o.msg.addr) !in out)
    ensures Out(g, ops + [o], if o.kind.Whole? then out[g.Block(o.msg.addr) := o.msg] else out)
  {
    var more := ops + [o];
    var after := if o.kind.Whole? then out[g.Block(o.msg.addr) := o.msg] else out;
    forall l | l in after ensures WaitsWhole(g, more, l) {
      if l in out {
        assert WaitsWhole(g, ops, l);
        var i :| 0 <= i < |ops| && ops[i].kind.Whole? && g.Block(ops[i].msg.addr) == l;
        assert more[i] == ops[i];
      } else {
        assert more[|ops|] == o;
      }
    }
  }

  lemma {:induction false} EnqueuedOut(g: Geometry, a: Array, kind: Kind, m: Message, out: map<nat, Message>)
    requires Out(g, a.ops, out) && (kind.Whole? ==> g.Block(m.addr) !in out)
    ensures Out(g, Enqueue(a, kind, m).ops, if kind.Whole? then out[g.Block(m.addr) := m] else out)
  {
    var more := Append(a, kind, m);
    AppendedOut(g, a.ops, more.ops[|a.ops|], out);
    AdmitKeepsWork(g, more);
    SameWorkOut(g, more.ops, AdmitAll(more).ops, if kind.Whole? then out[g.Block(m.addr) := m] else out);
  }

  lemma OutIsHeld(g: Geometry, ops: seq<Op>, out: map<nat, Message>, addr: nat)
    requires Out(g, ops, out) && g.Block(addr) in out
    ensures g.Block(addr) in HeldLines(g, ops) && LineHasOp(g, ops, addr)
  {
    assert WaitsWhole(g, ops, g.Block(addr));
  }

  // ---- the simulation -------------------------------------------------------------------------------

  /** What is out after an access fires. */
  function OutAfter(g: Geometry, op: Op, out: map<nat, Message>): map<nat, Message> {
    if op.kind.Whole? then out - {g.Block(op.msg.addr)} else out
  }

  lemma {:induction false} FireFollows<S(!new)>(x: Setup<S>, c: Core<S>, rest: Array, op: Op, out: map<nat, Message>)
    requires op.kind.Whole? ==> x.g.Block(op.msg.addr) in out && out[x.g.Block(op.msg.addr)] == op.msg
    ensures Leads(x.g, Shadow(c, out), EventsOfFire(x, c, op), Shadow(Fire(x, c.(list := rest), op), OutAfter(x.g, op, out)))
  {
    var s, b := Shadow(c, out), x.g.Block(op.msg.addr);
    if op.kind.Actions? {
      LogLast(c.log, Acted(op.msg));
      LeadsOne(x.g, s, Order.Mark);
    } else if x.table.ready(c.state, op.msg) {
      LogLast(c.log, Happening.Ran(op.msg));
      var t := Order.Step(x.g, s, Order.Leave(b));
      LeadsOne(x.g, s, Order.Leave(b));
      LeadsOne(x.g, t, Order.Mark);
      LeadsOn(x.g, s, [Order.Leave(b)], t, [Order.Mark], Order.Step(x.g, t, Order.Mark));
    } else {
      LogLast(c.log, Requeued(op.msg));
      LeadsOne(x.g, s, Order.Return(b, true));
    }
  }

  /** An access leaves the list and fires. */
  lemma {:induction false} RemovalFollows<S(!new)>(x: Setup<S>, c: Core<S>, rest: Array, k: nat, out: map<nat, Message>)
    requires WholeAlone(x.g, c.list.ops) && Out(x.g, c.list.ops, out) && k < |c.list.ops|
    requires rest.ops == c.list.ops[..k] + c.list.ops[k + 1..]
    ensures var (op, d) := (c.list.ops[k], Fire(x, c.(list := rest), c.list.ops[k]));
      && WholeAlone(x.g, d.list.ops) && Out(x.g, d.list.ops, OutAfter(x.g, op, out))
      && Leads(x.g, Shadow(c, out), EventsOfFire(x, c, op), Shadow(d, OutAfter(x.g, op, out)))
  {
    var op := c.list.ops[k];
    RemovedOut(x.g, c.list.ops, k, out);
    RemoveKeepsAlone(x.g, c.list.ops, k);
    FireFollows(x, c, rest, op, out);
    FireMarks(x, c.(list := rest), op);
  }

  lemma {:induction false} CompletionsFollow<S(!new)>(x: Setup<S>, c: Core<S>, out: map<nat, Message>)
      returns (out': map<nat, Message>)
    requires WholeAlone(x.g, c.list.ops) && Out(x.g, c.list.ops, out)
    ensures Out(x.g, CompleteDue(x, c).list.ops, out')
    ensures Leads(x.g, Shadow(c, out), EventsOfCompletions(x, c), Shadow(CompleteDue(x, c), out'))
    decreases |c.list.ops|
  {
    var k := FirstDue(c.list, 0);
    if k < |c.list.ops| {
      var op := c.list.ops[k];
      RemovalFollows(x, c, CompleteAt(c.list, k), k, out);
      out' := CompletionsFollow(x, CompleteOne(x, c, k), OutAfter(x.g, op, out));
      LeadsOn(x.g, Shadow(c, out), EventsOfFire(x, c, op), Shadow(CompleteOne(x, c, k), OutAfter(x.g, op, out)),
              EventsOfCompletions(x, CompleteOne(x, c, k)), Shadow(CompleteDue(x, c), out'));
    } else {
      out' := out;
      LeadsNowhere(x.g, Shadow(c, out));
    }
  }

  lemma {:induction false} FlushFollows<S(!new)>(x: Setup<S>, c: Core<S>, addr: nat, out: map<nat, Message>)
      returns (out': map<nat, Message>)
    requires WholeAlone(x.g, c.list.ops) && Out(x.g, c.list.ops, out)
    ensures Out(x.g, Scheduler.Flush(x, c, addr).list.ops, out')
    ensures Leads(x.g, Shadow(c, out), EventsOfFlush(x, c, addr), Shadow(Scheduler.Flush(x, c, addr), out'))
    decreases |c.list.ops|
  {
    var k := FirstOn(OnLine(x.g, addr), c.list.ops);
    if k < |c.list.ops| {
      var op := c.list.ops[k];
      RemovalFollows(x, c, Remove(c.list, k), k, out);
      out' := FlushFollows(x, FlushOne(x, c, k), addr, OutAfter(x.g, op, out));
      LeadsOn(x.g, Shadow(c, out), EventsOfFire(x, c, op), Shadow(FlushOne(x, c, k), OutAfter(x.g, op, out)),
              EventsOfFlush(x, FlushOne(x, c, k), addr), Shadow(Scheduler.Flush(x, c, addr), out'));
    } else {
      out' := out;
      LeadsNowhere(x.g, Shadow(c, out));
    }
  }

  /** Messages come in from the side they say. */
  ghost predicate FromItsSide(i: Input) {
    && (i.above.Some? ==> i.above.value.source.Upper?) && (i.below.Some? ==> !i.below.value.source.Upper?)
    && (i.writeBack.Some? ==> !i.writeBack.value.source.Upper?)
  }

  lemma {:induction false} ArriveFollows<S(!new)>(g: Geometry, c: Core<S>, m: Message, out: map<nat, Message>)
    requires !m.source.Upper?
    ensures Leads(g, Shadow(c, out), [Order.Arrive(m, NonReady, true)], Shadow(Scheduler.Arrive(c, m), out))
    ensures Leads(g, Shadow(c, out), [Order.Arrive(m, NonReady, !m.IsDemandRequest())], Shadow(FromBelow(c, m), out))
  {
    LogLast(c.log, Arrived(m));
    LeadsOne(g, Shadow(c, out), Order.Arrive(m, NonReady, true));
    LeadsOne(g, Shadow(c, out), Order.Arrive(m, NonReady, !m.IsDemandRequest()));
  }

  lemma {:induction false} AboveFollows<S(!new)>(g: Geometry, c: Core<S>, m: Message, out: map<nat, Message>)
    requires m.source.Upper?
    ensures Leads(g, Shadow(c, out), [Order.ArriveInOrder(m)], Shadow(FromAbove(c, m), out))
  {
    LogLast(c.log, Arrived(m));
    LeadsOne(g, Shadow(c, out), Order.ArriveInOrder(m));
  }

  lemma {:induction false} IntakeFollows<S(!new)>(g: Geometry, c: Core<S>, i: Input, out: map<nat, Message>)
    requires FromItsSide(i)
    ensures Leads(g, Shadow(c, out), EventsOfIntake(i), Shadow(Scheduler.Intake(c, i.above, i.below), out))
    ensures Scheduler.Intake(c, i.above, i.below).list == c.list
  {
    var d := if i.above.Some? then FromAbove(c, i.above.value) else c;
    LeadsNowhere(g, Shadow(c, out));
    if i.above.Some? { AboveFollows(g, c, i.above.value, out); }
    LeadsNowhere(g, Shadow(d, out));
    if i.below.Some? { ArriveFollows(g, d, i.below.value, out); }
    LeadsOn(g, Shadow(c, out), if i.above.Some? then [Order.ArriveInOrder(i.above.value)] else [], Shadow(d, out),
            if i.below.Some? then [Order.Arrive(i.below.value, NonReady, !i.below.value.IsDemandRequest())] else [],
            Shadow(Scheduler.Intake(c, i.above, i.below), out));
  }

  lemma {:induction false} ReplacementFollows<S(!new)>(x: Setup<S>, c: Core<S>, i: Input, out: map<nat, Message>)
      returns (out': map<nat, Message>)
    requires FromItsSide(i) && WholeAlone(x.g, c.list.ops) && Out(x.g, c.list.ops, out)
    ensures var d := if i.writeBack.Some? then Replace(x, c, i.writeBack.value) else c;
      Out(x.g, d.list.ops, out') && Leads(x.g, Shadow(c, out), EventsOfReplacement(x, c, i.writeBack), Shadow(d, out'))
  {
    if i.writeBack.Some? {
      var m := i.writeBack.value;
      ArriveFollows(x.g, c, m, out);
      out' := FlushFollows(x, Scheduler.Arrive(c, m), m.addr, out);
      LeadsOn(x.g, Shadow(c, out), [Order.Arrive(m, NonReady, true)], Shadow(Scheduler.Arrive(c, m), out),
              EventsOfFlush(x, Scheduler.Arrive(c, m), m.addr), Shadow(Replace(x, c, m), out'));
    } else {
      out' := out;
      LeadsNowhere(x.g, Shadow(c, out));
    }
  }

  lemma {:induction false} PopFollows<S(!new)>(x: Setup<S>, c: Core<S>, out: map<nat, Message>)
    requires Out(x.g, c.list.ops, out)
    ensures var (got, d) := Pop(x, c);
      Leads(x.g, Shadow(c, out), [Order.Take(OwnerIn(x, c))], Shadow(d, if got.Item? then out[x.g.Block(got.m.addr) := got.m] else out))
  {
    var got := Pop(x, c).0;
    if got.Item? { LogLast(c.log, Popped(got.m)); }
    forall m: Message | x.g.Block(m.addr) in out ensures OwnerIn(x, c).hold(m) { OutIsHeld(x.g, c.list.ops, out, m.addr); }
    LeadsOne(x.g, Shadow(c, out), Order.Take(OwnerIn(x, c)));
  }

  lemma {:induction false} ParkFollows<S(!new)>(x: Setup<S>, c: Core<S>, parked: seq<Message>, out: map<nat, Message>)
    requires Out(x.g, c.list.ops, out)
    ensures Out(x.g, Park(c, parked).list.ops, out)
    ensures forall o :: Shadow(Park(c, parked), o) == Shadow(c, o)
    decreases |parked|
  {
    if parked != [] {
      LogLast(c.log, Happening.Parked(parked[0]));
      EnqueuedOut(x.g, c.list, Actions, parked[0], out);
      ParkFollows(x, c.(list := Enqueue(c.list, Actions, parked[0]), log := c.log + [Happening.Parked(parked[0])]), parked[1..], out);
    }
  }

  lemma {:induction false} GoBackFollows<S(!new)>(x: Setup<S>, c: Core<S>, m: Message, queued: nat, out: map<nat, Message>)
    requires x.g.Block(m.addr) !in out
    ensures Leads(x.g, Shadow(c, out[x.g.Block(m.addr) := m]), [Order.Return(x.g.Block(m.addr), false)], Shadow(GoBack(c, m, queued), out))
  {
    var b := x.g.Block(m.addr);
    LogLast(c.log, Lost(m, queued));
    LogLast(c.log, Happening.PutBack(m));
    assert out[b := m] - {b} == out;
    LeadsOne(x.g, Shadow(c, out[b := m]), Order.Return(b, false));
  }

  lemma {:induction false} RunNowFollows<S(!new)>(x: Setup<S>, c: Core<S>, m: Message, out: map<nat, Message>)
    requires Out(x.g, c.list.ops, out) && x.g.Block(m.addr) !in out
    ensures Out(x.g, RunNow(x, c, m).list.ops, out)
    ensures Leads(x.g, Shadow(c, out[x.g.Block(m.addr) := m]), [Order.Leave(x.g.Block(m.addr))], Shadow(RunNow(x, c, m), out))
  {
    var b, d := x.g.Block(m.addr), Park(c, x.table.parks(c.state, m));
    ParkFollows(x, c, x.table.parks(c.state, m), out);
    LogLast(d.log, Happening.Ran(m));
    assert out[b := m] - {b} == out;
    assert Shadow(d, out) == Shadow(c, out);
    LeadsOne(x.g, Shadow(c, out[b := m]), Order.Leave(b));
  }

  lemma {:induction false} ProcessFollows<S(!new)>(x: Setup<S>, c: Core<S>, m: Message, queued: nat, out: map<nat, Message>)
      returns (out': map<nat, Message>)
    requires Out(x.g, c.list.ops, out) && x.g.Block(m.addr) !in out
    ensures var d := Process(x, c, m, queued).0;
      Out(x.g, d.list.ops, out') && Leads(x.g, Shadow(c, out[x.g.Block(m.addr) := m]), EventsOfProcess(x, c, m), Shadow(d, out'))
  {
    out' := out;
    if !x.table.admits(c.state, m) {
      GoBackFollows(x, c, m, queued, out);
    } else if x.table.defers(c.state, m) {
      out' := out[x.g.Block(m.addr) := m];
      EnqueuedOut(x.g, c.list, Whole, m, out);
      LeadsNowhere(x.g, Shadow(c, out'));
    } else if !x.table.ready(c.state, m) {
      GoBackFollows(x, c, m, queued, out);
    } else {
      RunNowFollows(x, c, m, out);
    }
  }

  lemma {:induction false} TurnFollows<S(!new)>(x: Setup<S>, c: Core<S>, out: map<nat, Message>)
      returns (out': map<nat, Message>)
    requires Sound(x, c) && Out(x.g, c.list.ops, out)
    ensures Out(x.g, TakeTurn(x, c).0.list.ops, out')
    ensures Leads(x.g, Shadow(c, out), EventsOfTurn(x, c), Shadow(TakeTurn(x, c).0, out'))
  {
    var (got, d) := Pop(x, c);
    PopFollows(x, c, out);
    out' := out;
    if got.Item? {
      PopKeeps(x, c);
      var b := x.g.Block(got.m.addr);
      if b in out { OutIsHeld(x.g, c.list.ops, out, got.m.addr); }
      out' := ProcessFollows(x, d, got.m, |c.queue.buffer|, out);
      LeadsOn(x.g, Shadow(c, out), [Order.Take(OwnerIn(x, c))], Shadow(d, out[b := got.m]),
              EventsOfProcess(x, d, got.m), Shadow(TakeTurn(x, c).0, out'));
    } else {
      assert EventsOfTurn(x, c) == [Order.Take(OwnerIn(x, c))];
    }
  }

  lemma {:induction false} LogicFollows<S(!new)>(x: Setup<S>, c: Core<S>, out: map<nat, Message>)
      returns (out': map<nat, Message>)
    requires Sound(x, c) && Out(x.g, c.list.ops, out)
    ensures Out(x.g, ProcessLogic(x, c).0.list.ops, out')
    ensures Leads(x.g, Shadow(c, out), EventsOfLogic(x, c), Shadow(ProcessLogic(x, c).0, out'))
    decreases Weight(c.queue.buffer)
  {
    TurnWeighs(x, c);
    TurnKeeps(x, c);
    var d := TakeTurn(x, c).0;
    var mid := TurnFollows(x, c, out);
    if TakeTurn(x, c).1.Ends() {
      out' := mid;
      assert EventsOfLogic(x, c) == EventsOfTurn(x, c);
    } else {
      out' := LogicFollows(x, d, mid);
      LeadsOn(x.g, Shadow(c, out), EventsOfTurn(x, c), Shadow(d, mid), EventsOfLogic(x, d), Shadow(ProcessLogic(x, c).0, out'));
    }
  }

  lemma WholeApart<S(!new)>(x: Setup<S>, c: Core<S>)
    requires Sound(x, c)
    ensures WholeAlone(x.g, c.list.ops)
  {
    Parts(x, c);
    assert Holds(x.g, c.list, Interlock);
  }

  lemma {:induction false} PipelineFollows<S(!new)>(x: Setup<S>, c: Core<S>, out: map<nat, Message>)
      returns (out': map<nat, Message>)
    requires Sound(x, c) && Out(x.g, c.list.ops, out)
    ensures Out(x.g, PipelineStep(x, c).list.ops, out')
    ensures Leads(x.g, Shadow(c, out), EventsOfCompletions(x, Admitted(c)), Shadow(PipelineStep(x, c), out'))
  {
    WholeApart(x, c);
    var next := c.list.(cycle := c.list.cycle + 1, used := 0);
    AdmitKeepsWork(x.g, next);
    SameWorkAlone(x.g, next.ops, AdmitAll(next).ops);
    SameWorkOut(x.g, next.ops, AdmitAll(next).ops, out);
    out' := CompletionsFollow(x, Admitted(c), out);
    assert Shadow(Admitted(c), out) == Shadow(c, out);
  }

  lemma {:induction false} IntakeKeeps<S(!new)>(x: Setup<S>, c: Core<S>, i: Input)
    requires Sound(x, c)
    ensures Sound(x, Scheduler.Intake(c, i.above, i.below))
  {
    var d := if i.above.Some? then FromAbove(c, i.above.value) else c;
    if i.above.Some? { ArriveKeeps(x, c, i.above.value); }
    if i.below.Some? { ArriveKeeps(x, d, i.below.value); }
  }

  lemma {:induction false} CycleFollows<S(!new)>(x: Setup<S>, c: Core<S>, i: Input, out: map<nat, Message>)
      returns (out': map<nat, Message>)
    requires Sound(x, c) && Out(x.g, c.list.ops, out) && FromItsSide(i)
    ensures Out(x.g, Cycle(x, c, i).0.list.ops, out')
    ensures Leads(x.g, Shadow(c, out), EventsOfCycle(x, c, i), Shadow(Cycle(x, c, i).0, out'))
  {
    var d := PipelineStep(x, c);
    PipelineStepKeeps(x, c);
    var o1 := PipelineFollows(x, c, out);
    var e := Scheduler.Intake(d, i.above, i.below);
    IntakeKeeps(x, d, i);
    IntakeFollows(x.g, d, i, o1);
    var f := if i.writeBack.Some? then Replace(x, e, i.writeBack.value) else e;
    WholeApart(x, e);
    var o2 := ReplacementFollows(x, e, i, o1);
    if i.writeBack.Some? { ReplaceKeeps(x, e, i.writeBack.value); }
    out' := LogicFollows(x, f, o2);
    var s, completions := Shadow(c, out), EventsOfCompletions(x, Admitted(c));
    LeadsOn(x.g, s, completions, Shadow(d, o1), EventsOfIntake(i), Shadow(e, o1));
    LeadsOn(x.g, s, completions + EventsOfIntake(i), Shadow(e, o1), EventsOfReplacement(x, e, i.writeBack), Shadow(f, o2));
    LeadsOn(x.g, s, completions + EventsOfIntake(i) + EventsOfReplacement(x, e, i.writeBack), Shadow(f, o2),
            EventsOfLogic(x, f), Shadow(Cycle(x, c, i).0, out'));
  }

  lemma {:induction false} OneMoreCycle<S(!new)>(x: Setup<S>, c: Core<S>, before: Core<S>, inputs: seq<Input>, out: map<nat, Message>,
                                                mid: map<nat, Message>)
      returns (out': map<nat, Message>)
    requires inputs != [] && before == Scheduler.RunAll(x, c, inputs[..|inputs| - 1]) && FromItsSide(inputs[|inputs| - 1])
    requires Sound(x, before) && Out(x.g, before.list.ops, mid)
    requires Leads(x.g, Shadow(c, out), EventsOfRun(x, c, inputs[..|inputs| - 1]), Shadow(before, mid))
    ensures Out(x.g, Scheduler.RunAll(x, c, inputs).list.ops, out')
    ensures Leads(x.g, Shadow(c, out), EventsOfRun(x, c, inputs), Shadow(Scheduler.RunAll(x, c, inputs), out'))
  {
    var n := |inputs| - 1;
    out' := CycleFollows(x, before, inputs[n], mid);
    LeadsOn(x.g, Shadow(c, out), EventsOfRun(x, c, inputs[..n]), Shadow(before, mid), EventsOfCycle(x, before, inputs[n]),
            Shadow(Scheduler.RunAll(x, c, inputs), out'));
  }

  /** Every run of a controller is a proper run of its queue: same queue, same arrivals, same
      departures, and out is what waits whole on the list. */
  lemma {:induction false} RunFollows<S(!new)>(x: Setup<S>, c: Core<S>, inputs: seq<Input>, out: map<nat, Message>)
      returns (out': map<nat, Message>)
    requires Sound(x, c) && Out(x.g, c.list.ops, out) && forall i :: 0 <= i < |inputs| ==> FromItsSide(inputs[i])
    ensures Out(x.g, Scheduler.RunAll(x, c, inputs).list.ops, out')
    ensures Leads(x.g, Shadow(c, out), EventsOfRun(x, c, inputs), Shadow(Scheduler.RunAll(x, c, inputs), out'))
    decreases |inputs|
  {
    if inputs == [] {
      out' := out;
      LeadsNowhere(x.g, Shadow(c, out));
    } else {
      var before := inputs[..|inputs| - 1];
      var mid := RunFollows(x, c, before, out);
      RunKeeps(x, c, before);
      out' := OneMoreCycle(x, c, Scheduler.RunAll(x, c, before), inputs, out, mid);
    }
  }

  /** The events lead to the controller's queue, arrivals and departures. */
  ghost predicate LeadsTo<S>(g: Geometry, s: Order.Traffic, events: seq<Order.Event>, c: Core<S>) {
    exists out :: Leads(g, s, events, Shadow(c, out))
  }

  function NewTraffic(queue: Queue): Order.Traffic { Order.Traffic(queue, [], map[], []) }

  lemma {:induction false} NewRunFollows<S(!new)>(x: Setup<S>, queue: Queue, ports: nat, latency: nat, inputs: seq<Input>)
    requires ParksOnItsLine(x.g, x.table) && ports > 0 && latency > 0 && queue.buffer == [] && queue.dirty
    requires forall i :: 0 <= i < |inputs| ==> FromItsSide(inputs[i])
    ensures var c := NewCore(x, queue, ports, latency);
      LeadsTo(x.g, NewTraffic(queue), EventsOfRun(x, c, inputs), Scheduler.RunAll(x, c, inputs))
  {
    var c := NewCore(x, queue, ports, latency);
    NewCoreIsSound(x, queue, ports, latency);
    var out := RunFollows(x, c, inputs, map[]);
    assert Shadow(c, map[]) == NewTraffic(queue);
  }

  /** What is exact for a run of the queue, of the controller it leads to. */
  lemma {:induction false} ExactOrder<S>(l: Order.Lane, queue: Queue, events: seq<Order.Event>, c: Core<S>)
    requires queue.buffer == [] && queue.lines == Some(l.g)
    requires LeadsTo(l.g, NewTraffic(queue), events, c) && Order.Distinct(Order.Of(l, Arrivals(c.log)))
    ensures Order.StaysInOrder(l, NewTraffic(queue), events) <==> Order.NeverOvertaken(l, NewTraffic(queue), events)
    ensures Order.NeverOvertaken(l, NewTraffic(queue), events) ==> Order.Of(l, Departures(c.log)) <= Order.Of(l, Arrivals(c.log))
  {
    Order.InOrderIffNotOvertaken(l, NewTraffic(queue), events);
    if Order.NeverOvertaken(l, NewTraffic(queue), events) { Order.LeavesInArrivalOrder(l, NewTraffic(queue), events); }
  }

  /** Per-line order of a whole controller: over every run of a new controller with the line gate, the
      ordered messages one side sends to a line stay in order, at every event, if and only if none is
      put back while a younger one of the line is queued; and then what has left of the line is a
      beginning of what arrived. */
  lemma {:induction false} LineOrderIffNotOvertaken<S(!new)>(x: Setup<S>, queue: Queue, ports: nat, latency: nat, inputs: seq<Input>,
                                                            l: Order.Lane)
    requires ParksOnItsLine(x.g, x.table) && ports > 0 && latency > 0 && queue.buffer == [] && queue.dirty
    requires queue.lines == Some(x.g) && l.g == x.g && forall i :: 0 <= i < |inputs| ==> FromItsSide(inputs[i])
    requires Order.Distinct(Order.Of(l, Arrivals(Scheduler.RunAll(x, NewCore(x, queue, ports, latency), inputs).log)))
    ensures var c := NewCore(x, queue, ports, latency);
      var (s, events, d) := (NewTraffic(queue), EventsOfRun(x, c, inputs), Scheduler.RunAll(x, c, inputs));
      && LeadsTo(x.g, s, events, d)
      && (Order.StaysInOrder(l, s, events) <==> Order.NeverOvertaken(l, s, events))
      && (Order.NeverOvertaken(l, s, events) ==> Order.Of(l, Departures(d.log)) <= Order.Of(l, Arrivals(d.log)))
  {
    var c := NewCore(x, queue, ports, latency);
    NewRunFollows(x, queue, ports, latency, inputs);
    ExactOrder(l, queue, EventsOfRun(x, c, inputs), Scheduler.RunAll(x, c, inputs));
  }
}

/** The scheduling half of a cache controller, in place: BaseController::processLogic and the pipelined
    data array of CacheController. Every method does to the fields what Scheduler's function of the
    same name does to the value. */
module Controller {
  import opened Wrappers
  import opened Messages
  import opened Geometry
  import opened QueueModel
  import opened ProcessingQueue
  import opened ArrayPipeline
  import opened ControllerModel
  import opened Scheduler

  class CacheController<S(!new)> {
    const g: Geometry
    const ports: nat
    const latency: nat
    const queue: FrfcfsBuffer
    const table: Table<S>
    ghost const start: S

    var ops: seq<Op>
    var used: nat
    var cycle: nat      // the cycle last processed: one less than m_cache_cycle between cycles
    var opSeq: nat
    var state: S

    ghost var core: Core<S>

    ghost function Config(): Setup<S> { Setup(g, table, start) }

    /** The fields are those of the value. */
    ghost predicate Mirrors()
      reads this, queue
    {
      && core.queue == queue.AsQueue() && core.state == state
      && core.list.ops == ops && core.list.used == used && core.list.cycle == cycle && core.list.lastId == opSeq
      && core.list.ports == ports && core.list.latency == latency
    }

    ghost predicate Valid()
      reads this, queue
    {
      Mirrors() && Sound(Config(), core)
    }

    constructor (g: Geometry, ports: nat, latency: nat, queue: FrfcfsBuffer, table: Table<S>, state: S)
      requires ports > 0 && latency > 0 && queue.buffer == [] && queue.dirty && ParksOnItsLine(g, table)
      ensures Valid() && this.queue == queue && core == NewCore(Config(), queue.AsQueue(), ports, latency)
      ensures Config() == Setup(g, table, state)
    {
      this.g, this.ports, this.latency, this.queue, this.table, this.state := g, ports, latency, queue, table, state;
      start := state;
      ops, used, cycle, opSeq := [], 0, 0, 0;
      core := NewCore(Setup(g, table, state), queue.AsQueue(), ports, latency);
      NewCoreIsSound(Setup(g, table, state), queue.AsQueue(), ports, latency);
    }

    function CurrentOwner(): Owner
      reads this`ops, this`state
    {
      OwnerOf(g, HeldLines(g, ops), ReadyIn(table, state))
    }

    /** arrayElect with no arbiter. */
    method ArrayElect() returns (k: nat)
      ensures k == FirstWaiting(ops)
    {
      k := 0;
      while k < |ops|
        invariant k <= |ops|
        invariant forall i :: 0 <= i < k ==> ops[i].admitted
      {
        if !ops[k].admitted { break; }
        k := k + 1;
      }
      FirstWaitingIs(ops, k);
    }

    /** arrayAdmit. */
    method ArrayAdmit()
      requires Mirrors()
      modifies this`ops, this`used, this`core
      ensures Mirrors() && core == old(core).(list := AdmitAll(old(core).list))
    {
      ghost var list := core.list;
      while used < ports
        invariant Mirrors() && core == old(core).(list := list) && AdmitAll(list) == AdmitAll(old(core).list)
        decreases ports - used
      {
        var k := ArrayElect();
        if k == |ops| { return; }
        list := AdmitOne(list);
        core := core.(list := list);
        ops := ops[k := ops[k].(admitted := true, ready := cycle + latency)];
        used := used + 1;
      }
    }

    /** arrayEnqueue. */
    method ArrayEnqueue(kind: Kind, msg: Message)
      requires Mirrors()
      modifies this`ops, this`used, this`opSeq, this`core
      ensures Mirrors() && core == old(core).(list := Enqueue(old(core).list, kind, msg))
    {
      core := core.(list := Append(core.list, kind, msg));
      opSeq := opSeq + 1;
      ops := ops + [Op(opSeq, kind, msg, false, 0)];
      ArrayAdmit();
    }

    /** pipelineFire on an access already off the list. A whole message whose row has become a stall
        goes back to the queue; otherwise its row runs now. Its array calls run inline, so nothing
        joins the list. */
    method PipelineFire(op: Op)
      requires Mirrors()
      modifies this`state, this`core, queue
      ensures Mirrors() && core == Fire(Config(), old(core), op)
    {
      core := Fire(Config(), core, op);
      if op.kind.Whole? {
        if !table.ready(state, op.msg) {
          var ok := queue.PushBack(op.msg, NonReady, true);
          queue.MarkDirty();
          return;
        }
        state := table.next(state, op.msg);
      } else {
        state := table.acted(state, op.msg);
      }
      queue.MarkDirty();
    }

    /** The first access that is due. */
    method FindDue() returns (k: nat)
      requires Mirrors()
      ensures k == FirstDue(core.list, 0)
    {
      k := 0;
      while k < |ops|
        invariant k <= |ops| && FirstDue(core.list, 0) == FirstDue(core.list, k)
      {
        if ops[k].admitted && ops[k].ready <= cycle { return; }
        k := k + 1;
      }
    }

    /** The rescan loop of pipelineStep: the list is searched again after each completion, and only
        shrinks. */
    method CompleteDue()
      requires Mirrors()
      modifies this`ops, this`state, this`core, queue
      ensures Mirrors() && core == Scheduler.CompleteDue(Config(), old(core))
    {
      var fired := true;
      while fired
        invariant Mirrors() && Scheduler.CompleteDue(Config(), core) == Scheduler.CompleteDue(Config(), old(core))
        invariant !fired ==> FirstDue(core.list, 0) == |ops|
        decreases |ops| + if fired then 1 else 0
      {
        fired := false;
        var k := FindDue();
        if k < |ops| {
          var op := ops[k];
          ghost var next := CompleteOne(Config(), core, k);
          core := core.(list := CompleteAt(core.list, k));
          ops := ops[..k] + ops[k + 1..];
          PipelineFire(op);
          FireMarks(Config(), next, op);
          assert core == next;
          fired := true;
        }
      }
    }

    /** pipelineStep, at the start of the next cycle: a fresh set of ports, then every access whose
        latency has elapsed completes. */
    method PipelineStep()
      requires Mirrors()
      modifies this`ops, this`used, this`cycle, this`state, this`core, queue
      ensures Mirrors() && core == Scheduler.PipelineStep(Config(), old(core))
    {
      cycle, used := cycle + 1, 0;
      core := core.(list := core.list.(cycle := cycle, used := 0));
      ArrayAdmit();
      CompleteDue();
    }

    /** The first access to a line. */
    method FindOnLine(addr: nat) returns (k: nat)
      ensures k == FirstOn(OnLine(g, addr), ops)
    {
      k := 0;
      while k < |ops|
        invariant k <= |ops| && FirstOn(OnLine(g, addr), ops) == k + FirstOn(OnLine(g, addr), ops[k..])
      {
        if g.Block(ops[k].msg.addr) == g.Block(addr) { return; }
        assert ops[k..][1..] == ops[k + 1..];
        k := k + 1;
      }
    }

    /** pipelineFlushLine: the accesses to a line complete now, oldest first; none remains. */
    method PipelineFlushLine(addr: nat)
      requires Mirrors()
      modifies this`ops, this`state, this`core, queue
      ensures Mirrors() && core == Scheduler.Flush(Config(), old(core), addr)
    {
      var fired := true;
      while fired
        invariant Mirrors() && Scheduler.Flush(Config(), core, addr) == Scheduler.Flush(Config(), old(core), addr)
        invariant !fired ==> FirstOn(OnLine(g, addr), core.list.ops) == |ops|
        decreases |ops| + if fired then 1 else 0
      {
        fired := false;
        var k := FindOnLine(addr);
        if k < |ops| {
          var op := ops[k];
          ghost var next := FlushOne(Config(), core, k);
          core := core.(list := Remove(core.list, k));
          ops := ops[..k] + ops[k + 1..];
          PipelineFire(op);
          assert core == next;
          fired := true;
        }
      }
    }

    /** checkReplacements: the victim's write-back joins the queue whatever its bound, and what waits
        on the victim's line completes. */
    method CheckReplacements(writeBack: Message)
      requires Mirrors()
      modifies this`ops, this`state, this`core, queue
      ensures Mirrors() && core == Replace(Config(), old(core), writeBack)
    {
      core := Scheduler.Arrive(core, writeBack);
      var ok := queue.PushBack(writeBack, NonReady, true);
      PipelineFlushLine(writeBack.addr);
    }

    /** addRequests2ProcessingQueue: at most one message from each side. A refused demand request
        stays in the lower interface. */
    method Intake(above: Option<Message>, below: Option<Message>) returns (taken: bool)
      requires Mirrors()
      modifies this`core, queue
      ensures Mirrors() && core == Scheduler.Intake(old(core), above, below)
      ensures taken <==> (below.Some?
        && !(below.value.IsDemandRequest() && queue.maxSize != -1 && |old(queue.buffer)| + (if above.Some? then 1 else 0) >= queue.maxSize))
    {
      core := Scheduler.Intake(core, above, below);
      if above.Some? { queue.PushFrontOrdered(above.value); }
      taken := false;
      if below.Some? { taken := queue.PushBack(below.value, NonReady, !below.value.IsDemandRequest()); }
    }

    /** The parked accesses of a row join the list. */
    method Park(parked: seq<Message>)
      requires Mirrors()
      modifies this`ops, this`used, this`opSeq, this`core
      ensures Mirrors() && core == Scheduler.Park(old(core), parked)
    {
      var i := 0;
      while i < |parked|
        invariant i <= |parked| && Mirrors()
        invariant Scheduler.Park(core, parked[i..]) == Scheduler.Park(old(core), parked)
      {
        assert parked[i..][1..] == parked[i + 1..];
        ArrayEnqueue(Actions, parked[i]);
        core := core.(log := core.log + [Happening.Parked(parked[i])]);
        i := i + 1;
      }
    }

    /** processLogic takes a message. */
    method Pop() returns (got: Got)
      requires Mirrors()
      modifies this`core, queue
      ensures Mirrors() && (got, core) == Scheduler.Pop(Config(), old(core))
    {
      core := Scheduler.Pop(Config(), core).1;
      got := queue.GetFirstReady(CurrentOwner());
    }

    /** A request that is put back; refused, it is lost. */
    method PutBack(m: Message, ghost queued: nat) returns (ok: bool)
      requires Mirrors()
      modifies this`core, queue
      ensures Mirrors() && core == GoBack(old(core), m, queued)
      ensures ok <==> !Refuses(old(core).queue, NonReady, false)
    {
      core := GoBack(core, m, queued);
      ok := queue.PushBack(m, NonReady, false);
    }

    /** What processLogic does with a message it took: put back, deferred whole, or run. */
    method Process(m: Message, ghost queued: nat) returns (turn: Turn)
      requires Mirrors()
      modifies this`ops, this`used, this`opSeq, this`state, this`core, queue
      ensures Mirrors() && (core, turn) == Scheduler.Process(Config(), old(core), m, queued)
    {
      if !table.admits(state, m) {
        var ok := PutBack(m, queued);
        turn := NotAdmitted(m);
      } else if table.defers(state, m) {
        ArrayEnqueue(Whole, m);
        turn := Turn.Deferred(m);
      } else if !table.ready(state, m) {
        var ok := PutBack(m, queued);
        turn := if ok then Stalled(m) else Aborted(m);
      } else {
        Park(table.parks(state, m));
        state := table.next(state, m);
        core := core.(state := state, log := core.log + [Happening.Ran(m)]);
        turn := Turn.Ran(m);
      }
    }

    /** One turn of the loop of processLogic. */
    method TakeTurn() returns (turn: Turn)
      requires Mirrors()
      modifies this`ops, this`used, this`opSeq, this`state, this`core, queue
      ensures Mirrors() && (core, turn) == Scheduler.TakeTurn(Config(), old(core))
    {
      ghost var queued := |queue.buffer|;
      var got := Pop();
      if got.Nothing? { return Idle; }
      turn := Process(got.m, queued);
    }

    /** The loop of processLogic: it ends, and it ends idle, at a request not admitted, or by
        aborting. */
    method ProcessLogic() returns (last: Turn)
      requires Mirrors()
      modifies this`ops, this`used, this`opSeq, this`state, this`core, queue
      ensures Mirrors() && (core, last) == Scheduler.ProcessLogic(Config(), old(core))
    {
      while true
        invariant Mirrors() && Scheduler.ProcessLogic(Config(), core) == Scheduler.ProcessLogic(Config(), old(core))
        decreases Weight(queue.buffer)
      {
        TurnWeighs(Config(), core);
        last := TakeTurn();
        if last.Ends() { return; }
      }
    }

    /** cycleProcess. */
    method CycleProcess(i: Input) returns (taken: bool, last: Turn)
      requires Valid()
      modifies this, queue
      ensures Valid() && (core, last) == Cycle(Config(), old(core), i)
    {
      CycleKeeps(Config(), core, i);
      PipelineStep();
      taken := Intake(i.above, i.below);
      if i.writeBack.Some? { CheckReplacements(i.writeBack.value); }
      last := ProcessLogic();
    }
  }
}

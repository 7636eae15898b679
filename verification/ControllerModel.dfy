/** The scheduling half of a cache controller with a pipelined data array: the processing queue
    releases messages line by line, messages that touch the array wait on its list, and the list is
    run as a pipeline (BaseController::processLogic, CacheController::pipelineStep, pipelineFire,
    pipelineFlushLine, deferForDataArray).

    The coherence protocol is an abstract table over an abstract state. */
module ControllerModel {
  import opened Wrappers
  import opened Sequences
  import opened Messages
  import opened Geometry
  import opened QueueModel
  import opened ArrayPipeline
  import RescanSkip

  /** lineHasDeferredOp: the address interlock. */
  predicate LineHasOp(g: Geometry, ops: seq<Op>, addr: nat) {
    exists i :: 0 <= i < |ops| && g.Block(ops[i].msg.addr) == g.Block(addr)
  }

  function HeldLines(g: Geometry, ops: seq<Op>): set<nat> {
    set i | 0 <= i < |ops| :: g.Block(ops[i].msg.addr)
  }

  lemma HeldLinesHaveOps(g: Geometry, ops: seq<Op>, addr: nat)
    ensures g.Block(addr) in HeldLines(g, ops) <==> LineHasOp(g, ops, addr)
  {
  }

  /** The queue's owner when these lines have an access listed. */
  function OwnerOf(g: Geometry, held: set<nat>, readiness: Message -> bool): Owner {
    Owner((m, s) => if readiness(m) then Ready else NonReady, (m: Message) => g.Block(m.addr) in held)
  }

  /** An access that is a whole message has its line to itself. */
  ghost predicate WholeAlone(g: Geometry, ops: seq<Op>) {
    forall i, j {:trigger Apart(g, ops[i], ops[j])} :: 0 <= i < |ops| && 0 <= j < |ops| && i != j ==> Apart(g, ops[i], ops[j])
  }

  ghost predicate Apart(g: Geometry, o: Op, p: Op) {
    o.kind.Whole? ==> g.Block(o.msg.addr) != g.Block(p.msg.addr)
  }

  /** No access to this line is a whole message. */
  ghost predicate NoWholeOn(g: Geometry, ops: seq<Op>, addr: nat) {
    forall i :: 0 <= i < |ops| && ops[i].kind.Whole? ==> g.Block(ops[i].msg.addr) != g.Block(addr)
  }

  function IfOf(kind: Kind): Op -> multiset<Message> { (o: Op) => if o.kind == kind then multiset{o.msg} else multiset{} }

  /** The messages whose accesses of this kind are listed: the whole ones, or the parked actions. */
  function OnList(ops: seq<Op>, kind: Kind): multiset<Message> { Sum(ops, IfOf(kind)) }

  /** Taking out an element that is not the last leaves the last where it is. */
  lemma WithoutKeepsLast<T>(s: seq<T>, i: nat)
    requires i < |s| - 1
    ensures s[..i] + s[i + 1..] == (s[..|s| - 1][..i] + s[..|s| - 1][i + 1..]) + [s[|s| - 1]]
  {
    assert s[..|s| - 1][..i] == s[..i];
    assert s[i + 1..] == s[i + 1..|s| - 1] + [s[|s| - 1]];
    assert s[..|s| - 1][i + 1..] == s[i + 1..|s| - 1];
  }

  /** Deferral, the interlock and conservation look at kinds and messages only. */
  ghost predicate SameWork(a: seq<Op>, b: seq<Op>) {
    |a| == |b| && forall i :: 0 <= i < |a| ==> a[i].kind == b[i].kind && a[i].msg == b[i].msg
  }

  lemma SameWorkAlone(g: Geometry, a: seq<Op>, b: seq<Op>)
    requires SameWork(a, b) && WholeAlone(g, a)
    ensures WholeAlone(g, b)
  {
    forall i, j | 0 <= i < |b| && 0 <= j < |b| && i != j ensures Apart(g, b[i], b[j]) { assert Apart(g, a[i], a[j]); }
  }

  lemma RemoveKeepsAlone(g: Geometry, ops: seq<Op>, k: nat)
    requires k < |ops| && WholeAlone(g, ops)
    ensures WholeAlone(g, ops[..k] + ops[k + 1..])
  {
    var rest := ops[..k] + ops[k + 1..];
    forall i, j | 0 <= i < |rest| && 0 <= j < |rest| && i != j ensures Apart(g, rest[i], rest[j]) {
      assert Apart(g, ops[if i < k then i else i + 1], ops[if j < k then j else j + 1]);
    }
  }

  lemma {:induction false} FlushKeepsAlone(g: Geometry, a: Array, onLine: nat -> bool)
    requires WholeAlone(g, a.ops)
    ensures WholeAlone(g, FlushLine(a, onLine).ops)
    decreases |a.ops|
  {
    var k := FirstOn(onLine, a.ops);
    if k < |a.ops| {
      RemoveKeepsAlone(g, a.ops, k);
      FlushKeepsAlone(g, Remove(a, k), onLine);
    }
  }

  lemma {:induction false} CompleteKeepsAlone(g: Geometry, a: Array)
    requires WholeAlone(g, a.ops)
    ensures WholeAlone(g, CompleteAll(a).ops)
    decreases |a.ops|
  {
    var k := FirstDue(a, 0);
    if k < |a.ops| {
      RemoveKeepsAlone(g, a.ops, k);
      CompleteKeepsAlone(g, CompleteAt(a, k));
    }
  }

  lemma CycleStepKeepsAlone(g: Geometry, a: Array)
    requires WholeAlone(g, a.ops)
    ensures WholeAlone(g, CycleStep(a).ops)
  {
    var next := a.(used := 0);
    AdmitAllFrame(next);
    SameWorkAlone(g, next.ops, AdmitAll(next).ops);
    CompleteKeepsAlone(g, AdmitAll(next));
  }

  lemma AppendKeepsAlone(g: Geometry, ops: seq<Op>, o: Op)
    requires WholeAlone(g, ops)
    requires if o.kind.Whole? then !LineHasOp(g, ops, o.msg.addr) else NoWholeOn(g, ops, o.msg.addr)
    ensures WholeAlone(g, ops + [o])
  {
    var more := ops + [o];
    forall i, j | 0 <= i < |more| && 0 <= j < |more| && i != j ensures Apart(g, more[i], more[j]) {
      if i < |ops| && j < |ops| { assert Apart(g, ops[i], ops[j]); }
    }
  }

  lemma SameWorkNoWhole(g: Geometry, a: seq<Op>, b: seq<Op>, addr: nat)
    requires SameWork(a, b) && NoWholeOn(g, a, addr)
    ensures NoWholeOn(g, b, addr)
  {
  }

  lemma {:induction false} AdmitKeepsWork(g: Geometry, a: Array)
    ensures SameWork(a.ops, AdmitAll(a).ops)
    ensures forall kind :: OnList(AdmitAll(a).ops, kind) == OnList(a.ops, kind)
    ensures HeldLines(g, AdmitAll(a).ops) == HeldLines(g, a.ops)
  {
    AdmitAllFrame(a);
    var b := AdmitAll(a).ops;
    forall kind ensures OnList(b, kind) == OnList(a.ops, kind) { SumSame(a.ops, b, IfOf(kind)); }
    forall l | l in HeldLines(g, a.ops) ensures l in HeldLines(g, b) {
      var i :| 0 <= i < |a.ops| && g.Block(a.ops[i].msg.addr) == l;
      assert g.Block(b[i].msg.addr) == l;
    }
    forall l | l in HeldLines(g, b) ensures l in HeldLines(g, a.ops) {
      var i :| 0 <= i < |b| && g.Block(b[i].msg.addr) == l;
      assert g.Block(a.ops[i].msg.addr) == l;
    }
  }

  // ---- the promises of the list, kept together ------------------------------------------------------

  // Fine is a quantifier over its parts: the verifier unfolds a part where a proof names it, and not at
  // every mention of the whole.

  datatype Promise = Scheduling | Admissions | Interlock

  ghost predicate Holds(g: Geometry, a: Array, p: Promise) {
    match p
    case Scheduling => InCycle(a)
    case Admissions => Counted(a)
    case Interlock => WholeAlone(g, a.ops)
  }

  ghost predicate Fine(g: Geometry, a: Array) { forall p {:trigger Holds(g, a, p)} :: Holds(g, a, p) }

  lemma NewArrayIsFine(g: Geometry, ports: nat, latency: nat)
    requires ports > 0 && latency > 0
    ensures Fine(g, NewArray(ports, latency, 0))
  {
    NewArrayQualifies(ports, latency, 0);
  }

  lemma CycleStepQualifies(g: Geometry, a: Array)
    requires Fine(g, a)
    ensures Fine(g, CycleStep(a.(cycle := a.cycle + 1)))
  {
    assert Holds(g, a, Scheduling) && Holds(g, a, Admissions) && Holds(g, a, Interlock);
    CycleStepKeeps(a);
    StepCounts(a, NextCycle);
    CycleStepKeepsAlone(g, a.(cycle := a.cycle + 1));
  }

  lemma {:induction false} FlushQualifies(g: Geometry, a: Array, onLine: nat -> bool)
    requires Fine(g, a)
    ensures Fine(g, FlushLine(a, onLine))
    ensures forall i :: 0 <= i < |FlushLine(a, onLine).ops| ==> !onLine(FlushLine(a, onLine).ops[i].msg.addr)
  {
    assert Holds(g, a, Scheduling) && Holds(g, a, Admissions) && Holds(g, a, Interlock);
    FlushKeeps(a, onLine);
    FlushCounts(a, onLine);
    FlushKeepsAlone(g, a, onLine);
  }

  /** An access joining the list: a whole message to a line with nothing listed, or the parked
      actions of a row to a line with no whole message listed. */
  lemma EnqueueQualifies(g: Geometry, a: Array, kind: Kind, msg: Message)
    requires Fine(g, a)
    requires if kind.Whole? then !LineHasOp(g, a.ops, msg.addr) else NoWholeOn(g, a.ops, msg.addr)
    ensures Fine(g, Enqueue(a, kind, msg))
  {
    assert Holds(g, a, Scheduling) && Holds(g, a, Admissions) && Holds(g, a, Interlock);
    EnqueueKeeps(a, kind, msg);
    StepCounts(a, Arrive(kind, msg));
    var more := Append(a, kind, msg);
    AppendKeepsAlone(g, a.ops, more.ops[|a.ops|]);
    AdmitKeepsWork(g, more);
    SameWorkAlone(g, more.ops, AdmitAll(more).ops);
  }

  lemma {:induction false} EnqueueLists(g: Geometry, a: Array, kind: Kind, msg: Message, addr: nat)
    ensures forall k :: OnList(Enqueue(a, kind, msg).ops, k) == OnList(a.ops, k) + if kind == k then multiset{msg} else multiset{}
    ensures kind.Actions? && NoWholeOn(g, a.ops, addr) ==> NoWholeOn(g, Enqueue(a, kind, msg).ops, addr)
  {
    var more := Append(a, kind, msg);
    forall k ensures OnList(more.ops, k) == OnList(a.ops, k) + if kind == k then multiset{msg} else multiset{} {
      SumLast(a.ops, more.ops[|a.ops|], IfOf(k));
    }
    AdmitKeepsWork(g, more);
    if kind.Actions? && NoWholeOn(g, a.ops, addr) { SameWorkNoWhole(g, more.ops, AdmitAll(more).ops, addr); }
  }

  function OnLine(g: Geometry, addr: nat): nat -> bool { (a: nat) => g.Block(a) == g.Block(addr) }

  // ---- the coherence protocol ---------------------------------------------------------------------

  /** The table, over whatever state the protocol and the storage keep: whether a message's row is
      ready (getRequestState), whether a request may be admitted (canAdmitRequest), whether it waits
      whole for the array (deferForDataArray), the state its row leaves, and the accesses its row
      parks (checkReadinessOfCache); `acted` is the state left by parked actions. */
  datatype Table<!S> = Table(ready: (S, Message) -> bool, admits: (S, Message) -> bool, defers: (S, Message) -> bool,
                             next: (S, Message) -> S, parks: (S, Message) -> seq<Message>, acted: (S, Message) -> S)

  /** A row parks accesses to its own line. */
  ghost predicate ParksOnItsLine<S(!new)>(g: Geometry, t: Table<S>) {
    forall s: S, m {:trigger OnItsLine(g, t.parks(s, m), m.addr)} :: OnItsLine(g, t.parks(s, m), m.addr)
  }

  ghost predicate OnItsLine(g: Geometry, parked: seq<Message>, addr: nat) {
    forall i :: 0 <= i < |parked| ==> g.Block(parked[i].addr) == g.Block(addr)
  }

  function ReadyIn<S(!new)>(t: Table<S>, s: S): Message -> bool { m => t.ready(s, m) }

  // ---- the dirty bit --------------------------------------------------------------------------------

  ghost predicate ScanGives(o: Owner, q: Queue, r: (Got, Queue)) { Scan(o, q) == r }

  /** The dirty bit is off only when a scan would find nothing and change nothing: the discipline
      the rescan skip asks of the queue's owner. */
  ghost predicate Rests(o: Owner, q: Queue) {
    q.dirty || forall r {:trigger ScanGives(o, q, r)} :: ScanGives(o, q, r) ==> r == (Nothing, q)
  }

  /** A scan that finds nothing leaves a queue worth skipping. */
  lemma {:induction false} NothingSettles(g: Geometry, held: set<nat>, readiness: Message -> bool, q: Queue)
    requires GetFirstReady(OwnerOf(g, held, readiness), q).0.Nothing? && Rests(OwnerOf(g, held, readiness), q)
    ensures Rests(OwnerOf(g, held, readiness), GetFirstReady(OwnerOf(g, held, readiness), q).1)
    ensures var o, after := OwnerOf(g, held, readiness), GetFirstReady(OwnerOf(g, held, readiness), q).1;
      q.stateOnly || q.dirty ==> Scan(o, after) == (Nothing, after)
  {
    var o := OwnerOf(g, held, readiness);
    if !(q.stateOnly && !q.dirty) {
      assert RescanSkip.Stable(o);
      RescanSkip.FruitlessScanSettles(o, q);
    } else {
      assert ScanGives(o, q, Scan(o, q));
    }
  }

  // ---- the processing loop ends -------------------------------------------------------------------

  /** A queued message that still bypasses the readiness check counts twice. */
  function Weight(buffer: seq<Element>): nat {
    if buffer == [] then 0 else Weight(buffer[..|buffer| - 1]) + if buffer[|buffer| - 1].status.Ready? then 2 else 1
  }

  lemma {:induction false} WeightSame(a: seq<Element>, b: seq<Element>)
    requires |a| == |b| && forall i :: 0 <= i < |a| ==> a[i].status.Ready? == b[i].status.Ready?
    ensures Weight(a) == Weight(b)
    decreases |a|
  {
    if a != [] { WeightSame(a[..|a| - 1], b[..|b| - 1]); }
  }

  lemma WeightLast(buffer: seq<Element>, e: Element)
    ensures Weight(buffer + [e]) == Weight(buffer) + if e.status.Ready? then 2 else 1
  {
    assert (buffer + [e])[..|buffer|] == buffer;
  }

  lemma {:induction false} WeightWithout(buffer: seq<Element>, k: nat)
    requires k < |buffer|
    ensures Weight(buffer[..k] + buffer[k + 1..]) + (if buffer[k].status.Ready? then 2 else 1) == Weight(buffer)
    decreases |buffer|
  {
    var n := |buffer| - 1;
    if k == n {
      assert buffer[..k] + buffer[k + 1..] == buffer[..n];
    } else {
      WithoutKeepsLast(buffer, k);
      WeightLast(buffer[..n][..k] + buffer[..n][k + 1..], buffer[n]);
      WeightWithout(buffer[..n], k);
    }
  }

  /** What a scan takes when no verdict asks for an action. */
  lemma ScanTakes(o: Owner, q: Queue)
    requires Scan(o, q).0.Item?
    ensures var k := FirstHit(o, q, 0);
      && k < |q.buffer| && !o.hold(q.buffer[k].item) && Scan(o, q).0.m == q.buffer[k].item
      && (Verdict(o, q.buffer[k]).Ready? ==>
            Scan(o, q).1 == q.(buffer := ScannedTo(o, q, k)[..k] + ScannedTo(o, q, k)[k + 1..]))
      && (Verdict(o, q.buffer[k]).Ready? || Verdict(o, q.buffer[k]).NeedsAction?)
  {
    assert Hits(o, q, FirstHit(o, q, 0));
  }

  /** What the scan takes under the controller's readiness. */
  lemma PopTakes(g: Geometry, held: set<nat>, readiness: Message -> bool, q: Queue)
    requires Scan(OwnerOf(g, held, readiness), q).0.Item?
    ensures var o := OwnerOf(g, held, readiness);
      var k := FirstHit(o, q, 0);
      && k < |q.buffer| && (q.buffer[k].status.Ready? || readiness(q.buffer[k].item))
      && g.Block(q.buffer[k].item.addr) !in held && Scan(o, q).0.m == q.buffer[k].item
      && Scan(o, q).1 == q.(buffer := ScannedTo(o, q, k)[..k] + ScannedTo(o, q, k)[k + 1..])
  {
    var o := OwnerOf(g, held, readiness);
    ScanTakes(o, q);
  }

  /** Only a dirty queue gives anything. */
  lemma PopIsAScan(o: Owner, q: Queue)
    requires GetFirstReady(o, q).0.Item? && Rests(o, q)
    ensures q.dirty && GetFirstReady(o, q).1.dirty
  {
    assert ScanGives(o, q, Scan(o, q));
  }

  /** Elements a scan passed over are as ready as before. */
  lemma ScanKeepsWeight(o: Owner, q: Queue)
    ensures Weight(ScannedTo(o, q, FirstHit(o, q, 0))) == Weight(q.buffer)
  {
    var k := FirstHit(o, q, 0);
    var scanned := ScannedTo(o, q, k);
    forall i | 0 <= i < |q.buffer| ensures scanned[i].status.Ready? == q.buffer[i].status.Ready? {
      assert i >= k || !Hits(o, q, i);
    }
    WeightSame(scanned, q.buffer);
  }

  /** A pop takes the popped message's weight off the queue: two when it had bypassed the check. */
  lemma {:induction false} PopWeighs(g: Geometry, held: set<nat>, readiness: Message -> bool, q: Queue)
    requires GetFirstReady(OwnerOf(g, held, readiness), q).0.Item?
    ensures var (got, after) := GetFirstReady(OwnerOf(g, held, readiness), q);
      && Weight(after.buffer) + (if readiness(got.m) then 1 else 2) <= Weight(q.buffer)
      && g.Block(got.m.addr) !in held
  {
    var o := OwnerOf(g, held, readiness);
    PopTakes(g, held, readiness, q);
    ScanKeepsWeight(o, q);
    WeightWithout(ScannedTo(o, q, FirstHit(o, q, 0)), FirstHit(o, q, 0));
  }

  lemma PushWeighs(q: Queue, m: Message)
    ensures Weight(PushBack(q, m, NonReady, false).buffer) <= Weight(q.buffer) + 1
  {
    assert (q.buffer + [Element(m, NonReady)])[..|q.buffer|] == q.buffer;
  }
}

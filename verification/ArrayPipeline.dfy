/** The pipelined data array of a cache controller without an arbiter: up to `ports` accesses are
    admitted per cycle, oldest first, and each completes `latency` cycles after its admission
    (CacheController::arrayEnqueue, arrayElect, arrayAdmit, pipelineStep, pipelineFlushLine).

    `notes`, `admittedAt` and `done` are history: when each access arrived and how many waited ahead
    of it, when it was admitted, and the accesses completed so far. They let the timing promises be
    stated over whole runs. */
module ArrayPipeline {
  import opened Messages
  import opened Sequences

  datatype Kind = Whole | Actions

  /** DataArrayOp. */
  datatype Op = Op(id: nat, kind: Kind, msg: Message, admitted: bool, ready: nat)

  datatype Note = Note(arrival: nat, ahead: nat)

  datatype Completion = Completion(id: nat, at: nat)

  datatype Array = Array(ports: nat, latency: nat, cycle: nat, ops: seq<Op>, used: nat, lastId: nat,
                         notes: map<nat, Note>, admittedAt: map<nat, nat>, done: seq<Completion>)

  /** arrayElect with no arbiter: the oldest access not admitted. */
  function FirstWaiting(ops: seq<Op>): (k: nat)
    ensures k <= |ops|
    ensures forall i :: 0 <= i < k ==> ops[i].admitted
    ensures k < |ops| ==> !ops[k].admitted
  {
    if ops == [] || !ops[0].admitted then 0 else 1 + FirstWaiting(ops[1..])
  }

  function AdmitOne(a: Array): Array
    requires FirstWaiting(a.ops) < |a.ops|
  {
    var k := FirstWaiting(a.ops);
    a.(ops := a.ops[k := a.ops[k].(admitted := true, ready := a.cycle + a.latency)], used := a.used + 1,
       admittedAt := a.admittedAt[a.ops[k].id := a.cycle])
  }

  function AdmitAll(a: Array): Array
    decreases if a.used < a.ports then a.ports - a.used else 0
  {
    if a.used < a.ports && FirstWaiting(a.ops) < |a.ops| then AdmitAll(AdmitOne(a)) else a
  }

  function Append(a: Array, kind: Kind, msg: Message): Array {
    var id := a.lastId + 1;
    a.(ops := a.ops + [Op(id, kind, msg, false, 0)], lastId := id,
       notes := a.notes[id := Note(a.cycle, |a.ops| - FirstWaiting(a.ops))])
  }

  /** arrayEnqueue. */
  function Enqueue(a: Array, kind: Kind, msg: Message): Array { AdmitAll(Append(a, kind, msg)) }

  function Remove(a: Array, i: nat): Array
    requires i < |a.ops|
  {
    a.(ops := a.ops[..i] + a.ops[i + 1..])
  }

  predicate Due(a: Array, i: nat)
    requires i < |a.ops|
  {
    a.ops[i].admitted && a.ops[i].ready <= a.cycle
  }

  function FirstDue(a: Array, from: nat): (k: nat)
    requires from <= |a.ops|
    ensures from <= k <= |a.ops|
    ensures forall i :: from <= i < k ==> !Due(a, i)
    ensures k < |a.ops| ==> Due(a, k)
    decreases |a.ops| - from
  {
    if from == |a.ops| || Due(a, from) then from else FirstDue(a, from + 1)
  }

  function CompleteAt(a: Array, i: nat): Array
    requires i < |a.ops|
  {
    Remove(a, i).(done := a.done + [Completion(a.ops[i].id, a.cycle)])
  }

  function CompleteAll(a: Array): Array
    decreases |a.ops|
  {
    var k := FirstDue(a, 0);
    if k < |a.ops| then CompleteAll(CompleteAt(a, k)) else a
  }

  /** pipelineStep. */
  function CycleStep(a: Array): Array { CompleteAll(AdmitAll(a.(used := 0))) }

  // ---- the invariant ------------------------------------------------------------------------------

  /** Admitted no later than one cycle after the accesses ahead had their turn. */
  ghost predicate InTime(a: Array, note: Note, admittedAt: int)
    requires a.ports > 0
  {
    note.arrival <= admittedAt <= note.arrival + note.ahead / a.ports + 1
  }

  /** What holds of the i-th listed access: admitted ones are in the array until `ready`; a waiting
      one has moved up by `ports` places for every cycle since it arrived. */
  ghost predicate OpFine(a: Array, i: nat)
    requires i < |a.ops| && a.ports > 0
  {
    var o := a.ops[i];
    && o.id in a.notes && o.id <= a.lastId && a.notes[o.id].arrival <= a.cycle
    && (o.admitted <==> i < FirstWaiting(a.ops))
    && (o.admitted ==>
          && o.id in a.admittedAt && o.ready == a.admittedAt[o.id] + a.latency
          && a.cycle <= o.ready <= a.cycle + a.latency && InTime(a, a.notes[o.id], a.admittedAt[o.id]))
    && (!o.admitted ==> Advanced(a, i - FirstWaiting(a.ops), a.notes[o.id]))
  }

  ghost predicate Advanced(a: Array, position: int, note: Note) {
    if note.arrival < a.cycle then position + a.used + a.ports * (a.cycle - 1 - note.arrival) <= note.ahead
    else position <= note.ahead
  }

  /** Arrival order is list order is admission order. */
  ghost predicate Older(o: Op, p: Op) { o.id < p.id && (p.admitted ==> o.admitted && o.ready <= p.ready) }

  ghost predicate Ordered(ops: seq<Op>) {
    forall i, j {:trigger Older(ops[i], ops[j])} :: 0 <= i < j < |ops| ==> Older(ops[i], ops[j])
  }

  /** Completions so far: in arrival order, each exactly `latency` cycles after an admission in
      time, all older than what is listed. */
  ghost predicate DoneFine(a: Array)
    requires a.ports > 0
  {
    && (forall i, j :: 0 <= i < j < |a.done| ==> a.done[i].id < a.done[j].id && a.done[i].at <= a.done[j].at)
    && (forall i :: 0 <= i < |a.done| ==> a.done[i].id in a.notes && a.done[i].id <= a.lastId && a.done[i].at <= a.cycle)
    && (forall i :: 0 <= i < |a.done| ==>
          && a.done[i].id in a.admittedAt && a.done[i].at == a.admittedAt[a.done[i].id] + a.latency
          && InTime(a, a.notes[a.done[i].id], a.admittedAt[a.done[i].id]))
    && (forall i, k :: 0 <= i < |a.done| && 0 <= k < |a.ops| ==> a.done[i].id < a.ops[k].id)
  }

  // The invariants below are quantifiers over small enumerations of their parts: the verifier unfolds a
  // part where a proof names it, and not at every mention of the whole.

  datatype Rule = Limits | Sequence | History | Listed

  ghost predicate Obeys(a: Array, r: Rule)
    requires a.ports > 0
  {
    match r
    case Limits => a.latency > 0 && a.used <= a.ports
    case Sequence => Ordered(a.ops)
    case History => DoneFine(a)
    case Listed => forall i {:trigger OpFine(a, i)} :: 0 <= i < |a.ops| ==> OpFine(a, i)
  }

  /** The list as a cycle's admissions find it. */
  ghost predicate Admitting(a: Array) { a.ports > 0 && forall r {:trigger Obeys(a, r)} :: Obeys(a, r) }

  lemma Rules(a: Array)
    requires Admitting(a)
    ensures Obeys(a, Limits) && Obeys(a, Sequence) && Obeys(a, History) && Obeys(a, Listed)
  {
  }

  /** No port is idle while an access waits. */
  ghost predicate PortsBusy(a: Array) { FirstWaiting(a.ops) < |a.ops| ==> a.used == a.ports }

  datatype Moment = Admits | Busy | NotDue

  ghost predicate During(a: Array, m: Moment) {
    match m
    case Admits => Admitting(a)
    case Busy => PortsBusy(a)
    case NotDue => forall i :: 0 <= i < |a.ops| && a.ops[i].admitted ==> a.cycle < a.ops[i].ready
  }

  /** After pipelineStep, for the rest of the cycle. */
  ghost predicate InCycle(a: Array) { a.ports > 0 && forall m {:trigger During(a, m)} :: During(a, m) }

  lemma CycleRules(a: Array)
    requires InCycle(a)
    ensures During(a, Admits) && During(a, Busy) && During(a, NotDue)
  {
  }

  lemma {:induction false} FirstWaitingIs(ops: seq<Op>, k: nat)
    requires k <= |ops| && (forall i :: 0 <= i < k ==> ops[i].admitted) && (k < |ops| ==> !ops[k].admitted)
    ensures FirstWaiting(ops) == k
  {
  }

  lemma {:induction false} AdmitOneKeepsOps(a: Array)
    requires Admitting(a) && a.used < a.ports && FirstWaiting(a.ops) < |a.ops|
    ensures FirstWaiting(AdmitOne(a).ops) == FirstWaiting(a.ops) + 1
    ensures forall i {:trigger OpFine(AdmitOne(a), i)} :: 0 <= i < |a.ops| ==> OpFine(AdmitOne(a), i)
  {
    Rules(a);
    var k, a' := FirstWaiting(a.ops), AdmitOne(a);
    assert OpFine(a, k);
    assert k + 1 < |a.ops| ==> OpFine(a, k + 1);
    FirstWaitingIs(a'.ops, k + 1);
    forall i | 0 <= i < |a'.ops| ensures OpFine(a', i) {
      assert OpFine(a, i);
      assert i == k || a.ops[i].id != a.ops[k].id by {
        assert i == k || Older(a.ops[if i < k then i else k], a.ops[if i < k then k else i]);
      }
      if i == k { AdmittedInTime(a, a.notes[a.ops[k].id]); }
    }
  }

  lemma {:induction false} AdmitOneKeepsOrder(a: Array)
    requires Admitting(a) && FirstWaiting(a.ops) < |a.ops|
    ensures Ordered(AdmitOne(a).ops)
  {
    Rules(a);
    var a' := AdmitOne(a);
    forall i, j | 0 <= i < j < |a'.ops| ensures Older(a'.ops[i], a'.ops[j]) {
      assert OpFine(a, i) && Older(a.ops[i], a.ops[j]);
    }
  }

  lemma {:induction false} AdmitOneKeeps(a: Array)
    requires Admitting(a) && a.used < a.ports && FirstWaiting(a.ops) < |a.ops|
    ensures Admitting(AdmitOne(a)) && AdmitOne(a).used == a.used + 1
  {
    Rules(a);
    AdmitOneKeepsOps(a);
    AdmitOneKeepsOrder(a);
  }

  lemma MulGrows(p: nat, d: nat)
    requires d >= 1
    ensures p * d >= p
  {
  }

  lemma {:induction false} QuotientBound(p: nat, t: nat, x: nat)
    requires p > 0 && p * t <= x
    ensures t <= x / p
  {
    var q := x / p;
    assert p * q + x % p == x;
    assert p * (t - q) == p * t - p * q;
    if t > q { MulGrows(p, t - q); }
  }

  lemma {:induction false} AdmittedInTime(a: Array, note: Note)
    requires a.ports > 0 && note.arrival <= a.cycle && Advanced(a, 0, note)
    ensures InTime(a, note, a.cycle)
  {
    if note.arrival < a.cycle { QuotientBound(a.ports, a.cycle - 1 - note.arrival, note.ahead); }
  }

  lemma {:induction false} AdmitAllKeeps(a: Array)
    requires Admitting(a)
    ensures Admitting(AdmitAll(a)) && PortsBusy(AdmitAll(a))
    decreases if a.used < a.ports then a.ports - a.used else 0
  {
    Rules(a);
    if a.used < a.ports && FirstWaiting(a.ops) < |a.ops| {
      AdmitOneKeeps(a);
      AdmitAllKeeps(AdmitOne(a));
    }
  }

  /** Nothing AdmitAll does ends before the latency has passed. */
  lemma {:induction false} AdmitAllEndsLater(a: Array)
    requires a.latency > 0 && forall i :: 0 <= i < |a.ops| && a.ops[i].admitted ==> a.cycle < a.ops[i].ready
    ensures forall i :: 0 <= i < |AdmitAll(a).ops| && AdmitAll(a).ops[i].admitted ==> a.cycle < AdmitAll(a).ops[i].ready
    decreases if a.used < a.ports then a.ports - a.used else 0
  {
    if a.used < a.ports && FirstWaiting(a.ops) < |a.ops| { AdmitAllEndsLater(AdmitOne(a)); }
  }

  lemma {:induction false} AdmitAllFrame(a: Array)
    ensures var b := AdmitAll(a);
      && b.ports == a.ports && b.latency == a.latency && b.cycle == a.cycle && b.lastId == a.lastId
      && b.notes == a.notes && b.done == a.done && |b.ops| == |a.ops|
      && forall i :: 0 <= i < |a.ops| ==>
        b.ops[i].id == a.ops[i].id && b.ops[i].msg == a.ops[i].msg && b.ops[i].kind == a.ops[i].kind
    decreases if a.used < a.ports then a.ports - a.used else 0
  {
    if a.used < a.ports && FirstWaiting(a.ops) < |a.ops| { AdmitAllFrame(AdmitOne(a)); }
  }

  lemma {:induction false} AppendWaiting(ops: seq<Op>, o: Op)
    requires !o.admitted
    ensures FirstWaiting(ops + [o]) == FirstWaiting(ops)
  {
    FirstWaitingIs(ops + [o], FirstWaiting(ops));
  }

  lemma AppendKeepsOps(a: Array, kind: Kind, msg: Message)
    requires Admitting(a) && PortsBusy(a)
    ensures forall i {:trigger OpFine(Append(a, kind, msg), i)} :: 0 <= i <= |a.ops| ==> OpFine(Append(a, kind, msg), i)
  {
    Rules(a);
    var b := Append(a, kind, msg);
    AppendWaiting(a.ops, b.ops[|a.ops|]);
    forall i | 0 <= i < |b.ops| ensures OpFine(b, i) {
      if i < |a.ops| { assert OpFine(a, i); }
    }
  }

  lemma {:induction false} AppendKeeps(a: Array, kind: Kind, msg: Message)
    requires InCycle(a)
    ensures Admitting(Append(a, kind, msg))
  {
    CycleRules(a);
    Rules(a);
    var b := Append(a, kind, msg);
    AppendKeepsOps(a, kind, msg);
    forall i, j | 0 <= i < j < |b.ops| ensures Older(b.ops[i], b.ops[j]) {
      if j < |a.ops| { assert Older(a.ops[i], a.ops[j]); } else { assert OpFine(a, i); }
    }
  }

  /** An access that arrives keeps the promises; it is admitted at once if a port is left. */
  lemma {:induction false} EnqueueKeeps(a: Array, kind: Kind, msg: Message)
    requires InCycle(a)
    ensures InCycle(Enqueue(a, kind, msg))
  {
    CycleRules(a);
    Rules(a);
    var b := Append(a, kind, msg);
    AppendKeeps(a, kind, msg);
    AdmitAllKeeps(b);
    AdmitAllFrame(b);
    AdmitAllEndsLater(b);
  }

  lemma {:induction false} RemoveWaits(ops: seq<Op>, i: nat)
    requires i < |ops| && forall k :: 0 <= k < |ops| ==> (ops[k].admitted <==> k < FirstWaiting(ops))
    ensures FirstWaiting(ops[..i] + ops[i + 1..]) == FirstWaiting(ops) - if i < FirstWaiting(ops) then 1 else 0
  {
    var k, rest := FirstWaiting(ops), ops[..i] + ops[i + 1..];
    FirstWaitingIs(rest, k - if i < k then 1 else 0);
  }

  lemma RemoveKeepsOps(a: Array, i: nat)
    requires Admitting(a) && i < |a.ops|
    ensures forall k {:trigger OpFine(Remove(a, i), k)} :: 0 <= k < |a.ops| - 1 ==> OpFine(Remove(a, i), k)
    ensures PortsBusy(a) ==> PortsBusy(Remove(a, i))
  {
    Rules(a);
    var b := Remove(a, i);
    forall k | 0 <= k < |a.ops| ensures OpFine(a, k) && (a.ops[k].admitted <==> k < FirstWaiting(a.ops)) {}
    RemoveWaits(a.ops, i);
    forall k | 0 <= k < |b.ops| ensures OpFine(b, k) { RemoveKeepsOp(a, i, k); }
  }

  lemma {:induction false} RemoveKeepsOp(a: Array, i: nat, k: nat)
    requires a.ports > 0 && i < |a.ops| && k < |a.ops| - 1 && OpFine(a, if k < i then k else k + 1)
    requires FirstWaiting(Remove(a, i).ops) == FirstWaiting(a.ops) - if i < FirstWaiting(a.ops) then 1 else 0
    ensures OpFine(Remove(a, i), k)
  {
  }

  /** An access that leaves the list disturbs no other. */
  lemma {:induction false} RemoveKeeps(a: Array, i: nat)
    requires Admitting(a) && i < |a.ops|
    ensures Admitting(Remove(a, i))
    ensures PortsBusy(a) ==> PortsBusy(Remove(a, i))
  {
    Rules(a);
    var b := Remove(a, i);
    RemoveKeepsOps(a, i);
    forall k, l | 0 <= k < l < |b.ops| ensures Older(b.ops[k], b.ops[l]) {
      assert Older(a.ops[if k < i then k else k + 1], a.ops[if l < i then l else l + 1]);
    }
  }

  /** What is due is the oldest listed access, and it is due exactly now. */
  lemma DueIsOldest(a: Array, k: nat)
    requires Admitting(a) && k == FirstDue(a, 0) < |a.ops|
    ensures k == 0 && a.ops[0].ready == a.cycle
  {
    Rules(a);
    assert OpFine(a, k) && OpFine(a, 0);
    assert k == 0 || Older(a.ops[0], a.ops[k]);
  }

  lemma {:induction false} CompleteAllKeeps(a: Array)
    requires Admitting(a)
    ensures Admitting(CompleteAll(a)) && (PortsBusy(a) ==> PortsBusy(CompleteAll(a)))
    decreases |a.ops|
  {
    Rules(a);
    var k := FirstDue(a, 0);
    if k < |a.ops| {
      DueIsOldest(a, k);
      RemoveKeeps(a, 0);
      CompletionIsFine(a);
      CompleteAllKeeps(CompleteAt(a, 0));
    }
  }

  /** Nothing due is left, and what was done stays done. */
  lemma {:induction false} CompleteAllCompletes(a: Array)
    ensures forall i :: 0 <= i < |CompleteAll(a).ops| ==> !Due(CompleteAll(a), i)
    ensures CompleteAll(a).cycle == a.cycle && CompleteAll(a).used == a.used && CompleteAll(a).ports == a.ports
    ensures a.done <= CompleteAll(a).done
    decreases |a.ops|
  {
    if FirstDue(a, 0) < |a.ops| { CompleteAllCompletes(CompleteAt(a, FirstDue(a, 0))); }
  }

  lemma {:induction false} DoneGrows(a: Array)
    requires Admitting(a) && |a.ops| > 0 && a.ops[0].admitted && a.ops[0].ready == a.cycle
    ensures DoneFine(CompleteAt(a, 0))
  {
    Rules(a);
    var b := CompleteAt(a, 0);
    assert OpFine(a, 0);
    forall k | 0 <= k < |b.ops| ensures a.ops[0].id < b.ops[k].id { assert Older(a.ops[0], a.ops[k + 1]); }
  }

  lemma {:induction false} CompletionIsFine(a: Array)
    requires Admitting(a) && |a.ops| > 0 && a.ops[0].admitted && a.ops[0].ready == a.cycle && Admitting(Remove(a, 0))
    ensures Admitting(CompleteAt(a, 0)) && (PortsBusy(Remove(a, 0)) ==> PortsBusy(CompleteAt(a, 0)))
  {
    Rules(a);
    var b, c := CompleteAt(a, 0), Remove(a, 0);
    DoneGrows(a);
    Rules(c);
    forall i | 0 <= i < |b.ops| ensures OpFine(b, i) { assert OpFine(c, i); }
  }

  lemma {:induction false} NextCycleAdmits(a: Array)
    requires InCycle(a)
    ensures Admitting(a.(cycle := a.cycle + 1, used := 0))
  {
    CycleRules(a);
    Rules(a);
    var b := a.(cycle := a.cycle + 1, used := 0);
    forall i | 0 <= i < |b.ops| ensures OpFine(b, i) { NextCycleAdmitsOp(a, i); }
  }

  lemma {:induction false} NextCycleAdmitsOp(a: Array, i: nat)
    requires InCycle(a) && i < |a.ops|
    ensures OpFine(a.(cycle := a.cycle + 1, used := 0), i)
  {
    CycleRules(a);
    Rules(a);
    assert OpFine(a, i);
    var note := a.notes[a.ops[i].id];
    if !a.ops[i].admitted && note.arrival < a.cycle { OneMoreTurn(a.ports, a.cycle - note.arrival); }
  }

  lemma OneMoreTurn(p: nat, t: nat)
    requires t >= 1
    ensures p * t == p + p * (t - 1)
  {
  }

  /** The cycle's step admits at most `ports` accesses, completes exactly those due, and leaves the
      promises standing for the rest of the cycle. */
  lemma {:induction false} CycleStepKeeps(a: Array)
    requires InCycle(a)
    ensures var next := a.(cycle := a.cycle + 1);
      && InCycle(CycleStep(next))
      && a.done <= CycleStep(next).done
  {
    CycleRules(a);
    Rules(a);
    var b := a.(cycle := a.cycle + 1, used := 0);
    NextCycleAdmits(a);
    AdmitAllKeeps(b);
    AdmitAllFrame(b);
    CompleteAllKeeps(AdmitAll(b));
    CompleteAllCompletes(AdmitAll(b));
    var c := CompleteAll(AdmitAll(b));
    assert c == CycleStep(a.(cycle := a.cycle + 1));
    forall i | 0 <= i < |c.ops| && c.ops[i].admitted ensures c.cycle < c.ops[i].ready { assert !Due(c, i); }
  }

  // ---- runs ---------------------------------------------------------------------------------------

  function FirstOn(onLine: nat -> bool, ops: seq<Op>): (k: nat)
    ensures k <= |ops|
    ensures forall i :: 0 <= i < k ==> !onLine(ops[i].msg.addr)
    ensures k < |ops| ==> onLine(ops[k].msg.addr)
  {
    if ops == [] || onLine(ops[0].msg.addr) then 0 else 1 + FirstOn(onLine, ops[1..])
  }

  /** pipelineFlushLine: every access to the line leaves the list, oldest first. */
  function FlushLine(a: Array, onLine: nat -> bool): Array
    decreases |a.ops|
  {
    var k := FirstOn(onLine, a.ops);
    if k < |a.ops| then FlushLine(Remove(a, k), onLine) else a
  }

  lemma {:induction false} RemoveStaysInCycle(a: Array, k: nat)
    requires InCycle(a) && k < |a.ops|
    ensures InCycle(Remove(a, k))
  {
    CycleRules(a);
    RemoveKeeps(a, k);
    assert During(Remove(a, k), NotDue);
  }

  lemma {:induction false} FlushKeeps(a: Array, onLine: nat -> bool)
    requires InCycle(a)
    ensures InCycle(FlushLine(a, onLine))
    ensures forall i :: 0 <= i < |FlushLine(a, onLine).ops| ==> !onLine(FlushLine(a, onLine).ops[i].msg.addr)
    ensures FlushLine(a, onLine).done == a.done
    decreases |a.ops|
  {
    var k := FirstOn(onLine, a.ops);
    if k < |a.ops| {
      RemoveStaysInCycle(a, k);
      FlushKeeps(Remove(a, k), onLine);
    }
  }

  datatype Event = Arrive(kind: Kind, msg: Message) | Flush(onLine: nat -> bool) | NextCycle

  function Step(a: Array, e: Event): Array {
    match e
    case Arrive(kind, msg) => Enqueue(a, kind, msg)
    case Flush(onLine) => FlushLine(a, onLine)
    case NextCycle => CycleStep(a.(cycle := a.cycle + 1))
  }

  function RunAll(a: Array, events: seq<Event>): Array {
    if events == [] then a else Step(RunAll(a, events[..|events| - 1]), events[|events| - 1])
  }

  // ---- admissions per cycle -----------------------------------------------------------------------

  ghost function IdsAt(when: map<nat, nat>, t: nat): set<nat> { set id | id in when && when[id] == t }

  ghost function AdmittedIn(a: Array, t: nat): set<nat> { IdsAt(a.admittedAt, t) }

  lemma OneMoreAt(when: map<nat, nat>, id: nat, c: nat, t: nat)
    requires id !in when
    ensures |IdsAt(when[id := c], t)| == |IdsAt(when, t)| + if t == c then 1 else 0
  {
    var more := when[id := c];
    if t == c {
      assert IdsAt(more, t) == IdsAt(when, t) + {id};
    } else {
      assert IdsAt(more, t) == IdsAt(when, t);
    }
  }

  datatype Count = Stamped | Waits | Numbered | ThisCycle | EveryCycle

  ghost predicate Counts(a: Array, c: Count) {
    match c
    case Stamped => forall id :: id in a.admittedAt ==> id <= a.lastId && a.admittedAt[id] <= a.cycle
    case Waits => forall i :: 0 <= i < |a.ops| ==> a.ops[i].id <= a.lastId && (!a.ops[i].admitted ==> a.ops[i].id !in a.admittedAt)
    case Numbered => forall i, j :: 0 <= i < j < |a.ops| ==> a.ops[i].id < a.ops[j].id
    case ThisCycle => |AdmittedIn(a, a.cycle)| == a.used <= a.ports
    case EveryCycle => forall t :: |AdmittedIn(a, t)| <= a.ports
  }

  /** `used` counts this cycle's admissions, and no cycle had more than there are ports. */
  ghost predicate Counted(a: Array) { forall c {:trigger Counts(a, c)} :: Counts(a, c) }

  lemma CountRules(a: Array)
    requires Counted(a)
    ensures Counts(a, Stamped) && Counts(a, Waits) && Counts(a, Numbered) && Counts(a, ThisCycle) && Counts(a, EveryCycle)
  {
  }

  lemma {:induction false} AdmitOneCounts(a: Array)
    requires Counted(a) && a.used < a.ports && FirstWaiting(a.ops) < |a.ops|
    ensures Counted(AdmitOne(a))
  {
    CountRules(a);
    var k, b := FirstWaiting(a.ops), AdmitOne(a);
    forall t ensures |AdmittedIn(b, t)| == |AdmittedIn(a, t)| + if t == a.cycle then 1 else 0 {
      OneMoreAt(a.admittedAt, a.ops[k].id, a.cycle, t);
    }
    forall i | 0 <= i < |b.ops| && i != k ensures b.ops[i].id != a.ops[k].id {
      assert i < k || k < i;
    }
  }

  lemma {:induction false} AdmitAllCounts(a: Array)
    requires Counted(a)
    ensures Counted(AdmitAll(a))
    decreases if a.used < a.ports then a.ports - a.used else 0
  {
    CountRules(a);
    if a.used < a.ports && FirstWaiting(a.ops) < |a.ops| {
      AdmitOneCounts(a);
      AdmitAllCounts(AdmitOne(a));
    }
  }

  lemma SameAdmissionsCount(a: Array, b: Array)
    requires Counted(a) && b.admittedAt == a.admittedAt && b.ports == a.ports && b.lastId >= a.lastId
    requires b.cycle == a.cycle && b.used == a.used
    requires forall i :: 0 <= i < |b.ops| ==> b.ops[i].id <= b.lastId && (!b.ops[i].admitted ==> b.ops[i].id !in a.admittedAt)
    requires forall i, j :: 0 <= i < j < |b.ops| ==> b.ops[i].id < b.ops[j].id
    ensures Counted(b)
  {
    CountRules(a);
    forall t: nat ensures AdmittedIn(b, t) == AdmittedIn(a, t) {}
  }

  lemma {:induction false} CompleteAllCounts(a: Array)
    requires Counted(a)
    ensures Counted(CompleteAll(a))
    decreases |a.ops|
  {
    CountRules(a);
    var k := FirstDue(a, 0);
    if k < |a.ops| {
      SameAdmissionsCount(a, CompleteAt(a, k));
      CompleteAllCounts(CompleteAt(a, k));
    }
  }

  lemma {:induction false} FlushCounts(a: Array, onLine: nat -> bool)
    requires Counted(a)
    ensures Counted(FlushLine(a, onLine))
    decreases |a.ops|
  {
    CountRules(a);
    var k := FirstOn(onLine, a.ops);
    if k < |a.ops| {
      SameAdmissionsCount(a, Remove(a, k));
      FlushCounts(Remove(a, k), onLine);
    }
  }

  lemma {:induction false} StepCounts(a: Array, e: Event)
    requires Counted(a)
    ensures Counted(Step(a, e))
  {
    CountRules(a);
    match e
    case Arrive(kind, msg) =>
      SameAdmissionsCount(a, Append(a, kind, msg));
      AdmitAllCounts(Append(a, kind, msg));
    case Flush(onLine) => FlushCounts(a, onLine);
    case NextCycle =>
      var b := a.(cycle := a.cycle + 1, used := 0);
      assert AdmittedIn(b, b.cycle) == {};
      forall t: nat ensures AdmittedIn(b, t) == AdmittedIn(a, t) {}
      AdmitAllCounts(b);
      CompleteAllCounts(AdmitAll(b));
  }

  lemma {:induction false} StepStaysInCycle(a: Array, e: Event)
    requires InCycle(a)
    ensures InCycle(Step(a, e))
  {
    match e
    case Arrive(kind, msg) => EnqueueKeeps(a, kind, msg);
    case Flush(onLine) => FlushKeeps(a, onLine);
    case NextCycle => CycleStepKeeps(a);
  }

  lemma {:induction false} RunsStayInCycle(a: Array, events: seq<Event>)
    requires InCycle(a) && Counted(a)
    ensures InCycle(RunAll(a, events)) && Counted(RunAll(a, events))
    decreases |events|
  {
    if events != [] {
      var n := |events| - 1;
      RunsStayInCycle(a, events[..n]);
      StepStaysInCycle(RunAll(a, events[..n]), events[n]);
      StepCounts(RunAll(a, events[..n]), events[n]);
    }
  }

  // ---- exactly which accesses leave -----------------------------------------------------------------

  function To(onLine: nat -> bool, yes: bool): Op -> bool { (o: Op) => onLine(o.msg.addr) == yes }

  function DueAt(cycle: nat, yes: bool): Op -> bool { (o: Op) => (o.admitted && o.ready <= cycle) == yes }

  /** Taking out the first that is kept out of a filter: the rest of the filter stays, and of the others it
      was the first. */
  lemma {:induction false} TakeOutFirst(ops: seq<Op>, k: nat, gone: Op -> bool, stays: Op -> bool)
    requires k < |ops| && gone(ops[k]) && !stays(ops[k]) && forall i :: 0 <= i < k ==> !gone(ops[i])
    ensures Filter(ops, stays) == Filter(ops[..k] + ops[k + 1..], stays)
    ensures Filter(ops, gone) == [ops[k]] + Filter(ops[..k] + ops[k + 1..], gone)
  {
    SplitAt(ops, k);
    FilterAround(ops[..k], ops[k], ops[k + 1..], stays);
    FilterAround(ops[..k], ops[k], ops[k + 1..], gone);
    FilterNone(ops[..k], gone);
  }

  /** A flush takes exactly the accesses to the line off the list. */
  lemma {:induction false} FlushTakesTheLine(a: Array, onLine: nat -> bool)
    ensures FlushLine(a, onLine) == a.(ops := Filter(a.ops, To(onLine, false)))
    decreases |a.ops|
  {
    var k := FirstOn(onLine, a.ops);
    if k < |a.ops| {
      TakeOutFirst(a.ops, k, To(onLine, true), To(onLine, false));
      FlushTakesTheLine(Remove(a, k), onLine);
    } else {
      FilterAll(a.ops, To(onLine, false));
    }
  }

  /** Completion takes exactly the due accesses. */
  lemma {:induction false} CompletionTakesTheDue(a: Array)
    ensures CompleteAll(a).ops == Filter(a.ops, DueAt(a.cycle, false))
    decreases |a.ops|
  {
    var k := FirstDue(a, 0);
    if k < |a.ops| {
      forall i | 0 <= i < k ensures !DueAt(a.cycle, true)(a.ops[i]) { assert !Due(a, i); }
      TakeOutFirst(a.ops, k, DueAt(a.cycle, true), DueAt(a.cycle, false));
      CompletionTakesTheDue(CompleteAt(a, k));
    } else {
      forall i | 0 <= i < |a.ops| ensures DueAt(a.cycle, false)(a.ops[i]) { assert !Due(a, i); }
      FilterAll(a.ops, DueAt(a.cycle, false));
    }
  }

  /** The access was admitted within k / ports + 1 cycles of arriving behind k waiting ones. */
  ghost predicate AdmittedPromptly(a: Array, id: nat)
    requires a.ports > 0
  {
    && id in a.notes && id in a.admittedAt
    && a.notes[id].arrival <= a.admittedAt[id] <= a.notes[id].arrival + a.notes[id].ahead / a.ports + 1
  }

  /** Over every run of arrivals, flushes and cycles: no cycle admits more than `ports` accesses; the
      accesses that complete do so in arrival order, each exactly `latency` cycles after it was
      admitted; and everything admitted was admitted promptly. */
  lemma {:induction false} PipelineKeepsItsPromises(a: Array, events: seq<Event>)
    requires InCycle(a) && Counted(a)
    ensures var r := RunAll(a, events);
      && r.ports > 0 && (forall t :: |AdmittedIn(r, t)| <= r.ports)
      && (forall i, j :: 0 <= i < j < |r.done| ==> r.done[i].id < r.done[j].id && r.done[i].at <= r.done[j].at)
      && (forall i :: 0 <= i < |r.done| ==> AdmittedPromptly(r, r.done[i].id) && r.done[i].at == r.admittedAt[r.done[i].id] + r.latency)
      && (forall i :: 0 <= i < |r.ops| && r.ops[i].admitted ==> AdmittedPromptly(r, r.ops[i].id))
  {
    CycleRules(a);
    Rules(a);
    CountRules(a);
    RunsStayInCycle(a, events);
    var r := RunAll(a, events);
    CycleRules(r);
    Rules(r);
    CountRules(r);
    forall i | 0 <= i < |r.ops| && r.ops[i].admitted ensures AdmittedPromptly(r, r.ops[i].id) {
      assert OpFine(r, i);
    }
  }

  /** An access still waiting has not waited longer than the accesses ahead of it justify. */
  lemma {:induction false} WaitingIsBounded(a: Array, i: nat)
    requires InCycle(a) && i < |a.ops| && !a.ops[i].admitted
    ensures a.ops[i].id in a.notes && a.cycle <= a.notes[a.ops[i].id].arrival + a.notes[a.ops[i].id].ahead / a.ports
  {
    CycleRules(a);
    Rules(a);
    assert OpFine(a, i);
    NotLate(a, i - FirstWaiting(a.ops), a.notes[a.ops[i].id]);
  }

  lemma {:induction false} NotLate(a: Array, position: int, note: Note)
    requires a.ports > 0 && a.used == a.ports && position >= 0 && note.arrival <= a.cycle && Advanced(a, position, note)
    ensures a.cycle <= note.arrival + note.ahead / a.ports
  {
    if note.arrival < a.cycle {
      OneMoreTurn(a.ports, a.cycle - note.arrival);
      QuotientBound(a.ports, a.cycle - note.arrival, note.ahead);
    }
  }

  function NewArray(ports: nat, latency: nat, cycle: nat): Array {
    Array(ports, latency, cycle, [], 0, 0, map[], map[], [])
  }

  lemma NewArrayQualifies(ports: nat, latency: nat, cycle: nat)
    requires ports > 0 && latency > 0
    ensures var a := NewArray(ports, latency, cycle);
      InCycle(a) && Counted(a)
  {
    var a := NewArray(ports, latency, cycle);
    forall t: nat ensures AdmittedIn(a, t) == {} {}
  }
}

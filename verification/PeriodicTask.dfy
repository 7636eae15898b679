/** Periodic tasks (CPU::finishJob, CPU::periodicLogic): every period of a finite task is released
    once or skipped once, jobs do not overlap, and no job is released after its own period. */
module PeriodicTasks {
  import opened Sequences

  /** `total` < 0 is a free-running task; `window` is the number of requests it may have in flight. */
  datatype Task = Task(total: int, period: nat, start: nat, deadline: nat, window: nat)

  /** The body of one job: the compute time before each access, and after the last. */
  datatype Job = Job(samples: seq<nat>, trailing: nat)

  datatype Outcome = Ran(release: nat, finish: nat, missed: bool) | Skipped

  /** `outcomes` has one entry for each index below `index`. */
  datatype Core = Core(clk: nat, index: nat, release: nat, missedDeadlines: nat, done: bool, outcomes: seq<Outcome>,
                       job: Job, next: nat, inProgress: bool, sent: nat, returned: nat, lastReceived: nat)

  function MaxOf(a: nat, b: nat): nat { if a >= b then a else b }

  function MinOf(a: nat, b: nat): nat { if a <= b then a else b }

  /** The start of period k. */
  function PeriodStart(t: Task, k: nat): nat { t.start + k * t.period }

  /** Period k has wholly passed. */
  predicate Passed(t: Task, k: nat, finish: nat) { PeriodStart(t, k) + t.period <= finish }

  /** The index after the periods an overrun swallowed. */
  function SkipFrom(t: Task, k: nat, finish: nat): (r: nat)
    requires t.total >= 0
    ensures k <= r
    ensures forall i :: k <= i < r ==> Passed(t, i, finish) && i < t.total
    ensures r < t.total ==> !Passed(t, r, finish)
    ensures k <= t.total ==> r <= t.total
    decreases if k < t.total then t.total - k else 0
  {
    if Passed(t, k, finish) && k < t.total then SkipFrom(t, k + 1, finish) else k
  }

  function Skips(n: nat): (r: seq<Outcome>)
    ensures |r| == n && forall i :: 0 <= i < n ==> r[i] == Skipped
  {
    seq(n, i => Skipped)
  }

  function Start(c: Core, index: nat, release: nat, job: Job): Core {
    c.(index := index, release := release, job := job, next := 0, inProgress := false, sent := 0, returned := 0)
  }

  /** finishJob of a finite task: report, skip, release the next job or end. */
  function FinishFinite(t: Task, c: Core, finish: nat, job: Job): Core
    requires t.total >= 0
  {
    var next := SkipFrom(t, c.index + 1, finish);
    var skipped := next - (c.index + 1);
    var reported := c.(missedDeadlines := c.missedDeadlines + skipped,
      outcomes := c.outcomes + [Ran(c.release, finish, finish > PeriodStart(t, c.index) + t.deadline)] + Skips(skipped));
    if next >= t.total then reported.(index := next, done := true)
    else Start(reported, next, MaxOf(finish, PeriodStart(t, next)), job)
  }

  /** finishJob of a free-running task: back to back, until the last finite core is done. */
  function FinishFree(c: Core, finish: nat, finiteCores: nat, job: Job): Core {
    var reported := c.(outcomes := c.outcomes + [Ran(c.release, finish, false)]);
    if finiteCores == 0 then reported.(index := c.index + 1, done := true) else Start(reported, c.index + 1, finish, job)
  }

  function FinishJob(t: Task, c: Core, finish: nat, finiteCores: nat, job: Job): Core {
    if t.total < 0 then FinishFree(c, finish, finiteCores, job) else FinishFinite(t, c, finish, job)
  }

  // ---- the next index -----------------------------------------------------------------------------

  function Quotient(t: Task, finish: nat): nat
    requires t.period > 0
  {
    if finish >= t.start then (finish - t.start) / t.period else 0
  }

  lemma {:induction false} PassedIff(t: Task, k: nat, finish: nat)
    requires t.period > 0
    ensures Passed(t, k, finish) <==> k + 1 <= Quotient(t, finish)
  {
    var q, x := Quotient(t, finish), finish - t.start;
    assert (k + 1) * t.period == k * t.period + t.period;
    if finish >= t.start {
      assert x == q * t.period + x % t.period;
      if k + 1 <= q { Products(k + 1, q, t.period); } else { Products(q + 1, k + 1, t.period); }
    }
  }

  lemma Products(a: nat, b: nat, p: nat)
    requires a <= b
    ensures a * p <= b * p
    ensures (a + 1) * p == a * p + p
  {
  }

  /** The next index: at least the following one, past the periods that ended by the finish, capped at
      the job total. */
  lemma {:induction false} NextIndexIs(t: Task, k: nat, finish: nat)
    requires t.period > 0 && t.total >= 0
    ensures SkipFrom(t, k, finish) == MaxOf(k, MinOf(t.total, Quotient(t, finish)))
    decreases if k < t.total then t.total - k else 0
  {
    PassedIff(t, k, finish);
    if Passed(t, k, finish) && k < t.total { NextIndexIs(t, k + 1, finish); }
  }

  // ---- what a task keeps --------------------------------------------------------------------------

  ghost predicate FiniteTask(t: Task) { t.total >= 0 && t.period > 0 }

  /** The job was released within its own period. */
  ghost predicate WithinPeriod(t: Task, index: nat, release: nat) {
    PeriodStart(t, index) <= release < PeriodStart(t, index) + t.period
  }

  function SkipCount(outcomes: seq<Outcome>): nat { |Filter(outcomes, (o: Outcome) => o.Skipped?)| }

  lemma SkipCountConcat(a: seq<Outcome>, b: seq<Outcome>)
    ensures SkipCount(a + b) == SkipCount(a) + SkipCount(b)
  {
    FilterConcat(a, b, (o: Outcome) => o.Skipped?);
  }

  lemma SkipsCount(n: nat)
    ensures SkipCount(Skips(n)) == n
  {
    FilterAll(Skips(n), (o: Outcome) => o.Skipped?);
  }

  /** Jobs so far: each ran from its release, inside its own period, and none before an earlier one
      finished. */
  ghost predicate RanWell(t: Task, outcomes: seq<Outcome>, i: nat)
    requires i < |outcomes|
  {
    outcomes[i].Ran? ==>
      && WithinPeriod(t, i, outcomes[i].release) && outcomes[i].release <= outcomes[i].finish
      && (outcomes[i].missed <==> outcomes[i].finish > PeriodStart(t, i) + t.deadline)
  }

  ghost predicate Apart(a: Outcome, b: Outcome) { a.Ran? && b.Ran? ==> a.finish <= b.release }

  ghost predicate Accounted(t: Task, c: Core) {
    && |c.outcomes| == c.index
    && c.missedDeadlines == SkipCount(c.outcomes)
    && (forall i {:trigger RanWell(t, c.outcomes, i)} :: 0 <= i < |c.outcomes| ==> RanWell(t, c.outcomes, i))
    && (forall i, j {:trigger Apart(c.outcomes[i], c.outcomes[j])} :: 0 <= i < j < |c.outcomes| ==>
          Apart(c.outcomes[i], c.outcomes[j]))
    && (if c.done then c.index == LastIndex(t) else Current(t, c))
  }

  /** One past the last job; a task of no jobs has one all the same. */
  function LastIndex(t: Task): int { if t.total > 1 then t.total else 1 }

  /** The job released last: in its own period, after every job before it. */
  ghost predicate Current(t: Task, c: Core) {
    && c.index < LastIndex(t) && WithinPeriod(t, c.index, c.release)
    && forall i :: 0 <= i < |c.outcomes| && c.outcomes[i].Ran? ==> c.outcomes[i].finish <= c.release
  }

  lemma {:induction false} Reports(t: Task, c: Core, finish: nat, missed: bool, skipped: nat)
    requires FiniteTask(t) && Accounted(t, c) && !c.done && c.release <= finish
    requires missed <==> finish > PeriodStart(t, c.index) + t.deadline
    ensures var outcomes := c.outcomes + [Ran(c.release, finish, missed)] + Skips(skipped);
      && SkipCount(outcomes) == c.missedDeadlines + skipped
      && (forall i {:trigger RanWell(t, outcomes, i)} :: 0 <= i < |outcomes| ==> RanWell(t, outcomes, i))
      && (forall i, j {:trigger Apart(outcomes[i], outcomes[j])} :: 0 <= i < j < |outcomes| ==> Apart(outcomes[i], outcomes[j]))
      && (forall i :: 0 <= i < |outcomes| && outcomes[i].Ran? ==> outcomes[i].finish <= finish)
  {
    var ran := [Ran(c.release, finish, missed)];
    var outcomes := c.outcomes + ran + Skips(skipped);
    SkipCountConcat(c.outcomes + ran, Skips(skipped));
    SkipCountConcat(c.outcomes, ran);
    SkipsCount(skipped);
    assert ran[..0] == [];
    forall i | 0 <= i < |outcomes| ensures RanWell(t, outcomes, i) {
      if i < c.index { assert RanWell(t, c.outcomes, i); }
    }
    forall i, j | 0 <= i < j < |outcomes| ensures Apart(outcomes[i], outcomes[j]) {
      if j < c.index { assert Apart(c.outcomes[i], c.outcomes[j]); }
    }
  }

  lemma {:induction false} FinishKeeps(t: Task, c: Core, finish: nat, job: Job)
    requires FiniteTask(t) && Accounted(t, c) && !c.done && c.release <= finish
    ensures Accounted(t, FinishFinite(t, c, finish, job))
  {
    var next := SkipFrom(t, c.index + 1, finish);
    Reports(t, c, finish, finish > PeriodStart(t, c.index) + t.deadline, next - (c.index + 1));
  }

  /** With a deadline no longer than the period, whoever makes a later job skip has missed its own
      deadline. */
  lemma {:induction false} SkippingMeansMissing(t: Task, c: Core, finish: nat, job: Job)
    requires FiniteTask(t) && t.deadline <= t.period && !c.done && |c.outcomes| == c.index
    requires SkipFrom(t, c.index + 1, finish) > c.index + 1
    ensures FinishFinite(t, c, finish, job).outcomes[c.index] == Ran(c.release, finish, true)
  {
    assert Passed(t, c.index + 1, finish);
    assert PeriodStart(t, c.index + 1) == PeriodStart(t, c.index) + t.period by { Products(c.index, c.index + 1, t.period); }
  }

  // ---- one core cycle by cycle --------------------------------------------------------------------

  /** The finish of a job whose accesses have all returned. */
  function DoneAt(c: Core): nat { (if c.job.samples != [] then c.lastReceived else c.release) + c.job.trailing }

  /** checkReceiveBuffer. */
  function Receive(c: Core): Core {
    if c.sent > 0 then c.(sent := c.sent - 1, returned := c.returned + 1, lastReceived := c.clk) else c
  }

  /** The access being worked on is issued when its compute time is over, there is room in the window
      and the L1 accepts it. */
  function TryIssue(t: Task, c: Core, accepted: bool): Core
    requires 0 < c.next <= |c.job.samples|
  {
    var base := if c.returned + c.sent == 0 then c.release else c.lastReceived;
    if c.sent < t.window && c.clk >= base + c.job.samples[c.next - 1] && accepted
    then c.(inProgress := false, sent := c.sent + 1) else c
  }

  /** periodicLogic. */
  function PeriodicLogic(t: Task, c: Core, accepted: bool, finiteCores: nat, job: Job): Core
    requires c.next <= |c.job.samples| && (c.inProgress ==> c.next > 0)
  {
    if c.clk < c.release then c
    else if c.inProgress then TryIssue(t, c, accepted)
    else if c.next < |c.job.samples| then TryIssue(t, c.(inProgress := true, next := c.next + 1), accepted)
    else if c.sent == 0 && c.clk >= DoneAt(c) then FinishJob(t, c, DoneAt(c), finiteCores, job)
    else c
  }

  /** What the environment does in one cycle: whether a response arrives, whether the L1 accepts, how
      many finite cores still run, and the body of a job that may start. */
  datatype Input = Input(response: bool, accepted: bool, finiteCores: nat, job: Job)

  function Cycle(t: Task, c: Core, x: Input): Core
    requires c.next <= |c.job.samples| && (c.inProgress ==> c.next > 0)
  {
    if c.done then c
    else
      var received := if x.response then Receive(c) else c;
      var d := PeriodicLogic(t, received, x.accepted, x.finiteCores, x.job);
      d.(clk := d.clk + 1)
  }

  /** The bookkeeping of the current job. */
  ghost predicate JobSound(c: Core) {
    && c.next <= |c.job.samples| && (c.inProgress ==> c.next > 0)
    && c.sent + c.returned == c.next - (if c.inProgress then 1 else 0)
    && c.lastReceived <= c.clk
    && (c.next > 0 ==> c.release <= c.clk)
    && (c.returned > 0 ==> c.release <= c.lastReceived)
  }

  ghost predicate Sound(t: Task, c: Core) { JobSound(c) && (FiniteTask(t) ==> Accounted(t, c)) }

  /** A finished job finished after its release and no later than now. */
  lemma FinishIsTimely(c: Core)
    requires JobSound(c) && !c.inProgress && c.next == |c.job.samples| && c.sent == 0 && c.clk >= DoneAt(c) && c.clk >= c.release
    ensures c.release <= DoneAt(c) <= c.clk
  {
  }

  /** The account looks at the outcomes and the current release only. */
  lemma SameAccount(t: Task, c: Core, d: Core)
    requires FiniteTask(t) && Accounted(t, c)
    requires d.index == c.index && d.outcomes == c.outcomes && d.missedDeadlines == c.missedDeadlines
    requires d.done == c.done && d.release == c.release
    ensures Accounted(t, d)
  {
    forall i | 0 <= i < |d.outcomes| ensures RanWell(t, d.outcomes, i) { assert RanWell(t, c.outcomes, i); }
    forall i, j | 0 <= i < j < |d.outcomes| ensures Apart(d.outcomes[i], d.outcomes[j]) {
      assert Apart(c.outcomes[i], c.outcomes[j]);
    }
  }

  /** The job is over: nothing in progress, to issue or in flight, and its compute time has passed. */
  predicate Finishes(c: Core) {
    c.clk >= c.release && !c.inProgress && c.next == |c.job.samples| && c.sent == 0 && c.clk >= DoneAt(c)
  }

  lemma {:induction false} LogicKeepsJob(t: Task, c: Core, accepted: bool, finiteCores: nat, job: Job)
    requires JobSound(c)
    ensures JobSound(PeriodicLogic(t, c, accepted, finiteCores, job))
  {
    if Finishes(c) { FinishIsTimely(c); }
  }

  lemma {:induction false} LogicKeepsAccount(t: Task, c: Core, accepted: bool, finiteCores: nat, job: Job)
    requires JobSound(c) && FiniteTask(t) && Accounted(t, c) && !c.done
    ensures Accounted(t, PeriodicLogic(t, c, accepted, finiteCores, job))
  {
    if Finishes(c) {
      FinishIsTimely(c);
      FinishKeeps(t, c, DoneAt(c), job);
    } else {
      SameAccount(t, c, PeriodicLogic(t, c, accepted, finiteCores, job));
    }
  }

  lemma {:induction false} JobStaysSound(t: Task, c: Core, x: Input)
    requires JobSound(c)
    ensures JobSound(Cycle(t, c, x))
  {
    if !c.done { LogicKeepsJob(t, if x.response then Receive(c) else c, x.accepted, x.finiteCores, x.job); }
  }

  lemma {:induction false} CycleKeeps(t: Task, c: Core, x: Input)
    requires Sound(t, c)
    ensures Sound(t, Cycle(t, c, x))
  {
    JobStaysSound(t, c, x);
    if FiniteTask(t) && !c.done {
      var r := if x.response then Receive(c) else c;
      SameAccount(t, c, r);
      LogicKeepsAccount(t, r, x.accepted, x.finiteCores, x.job);
      SameAccount(t, PeriodicLogic(t, r, x.accepted, x.finiteCores, x.job), Cycle(t, c, x));
    }
  }

  function RunAll(t: Task, c: Core, inputs: seq<Input>): Core
    requires JobSound(c)
    decreases |inputs|
  {
    if inputs == [] then c
    else
      JobStaysSound(t, c, inputs[0]);
      RunAll(t, Cycle(t, c, inputs[0]), inputs[1..])
  }

  lemma {:induction false} RunKeeps(t: Task, c: Core, inputs: seq<Input>)
    requires Sound(t, c)
    ensures Sound(t, RunAll(t, c, inputs))
    decreases |inputs|
  {
    if inputs != [] {
      CycleKeeps(t, c, inputs[0]);
      RunKeeps(t, Cycle(t, c, inputs[0]), inputs[1..]);
    }
  }

  /** init: job 0 is released at the start, whatever the job total. */
  function NewCore(t: Task, job: Job): Core {
    Core(0, 0, t.start, 0, false, [], job, 0, false, 0, 0, 0)
  }

  /** Every period is accounted for: over every run of a finite task each index so far was released
      once or skipped once, skips are the missed deadlines counted, a released job was released within
      its own period and missed its deadline exactly if it finished after it, and jobs do not overlap; when it is done, every index below its total has
      its outcome. */
  lemma {:induction false} EveryPeriodIsAccounted(t: Task, job: Job, inputs: seq<Input>)
    requires FiniteTask(t)
    ensures JobSound(NewCore(t, job))
    ensures var c := RunAll(t, NewCore(t, job), inputs);
      && |c.outcomes| == c.index && c.missedDeadlines == SkipCount(c.outcomes)
      && (forall i :: 0 <= i < |c.outcomes| && c.outcomes[i].Ran? ==>
            && WithinPeriod(t, i, c.outcomes[i].release) && c.outcomes[i].release <= c.outcomes[i].finish
            && (c.outcomes[i].missed <==> c.outcomes[i].finish > t.start + i * t.period + t.deadline))
      && (forall i, j :: 0 <= i < j < |c.outcomes| && c.outcomes[i].Ran? && c.outcomes[j].Ran? ==>
            c.outcomes[i].finish <= c.outcomes[j].release)
      && (c.done ==> c.index == LastIndex(t))
      && (!c.done ==> c.index < LastIndex(t))
  {
    StartsSound(t, job);
    RunKeeps(t, NewCore(t, job), inputs);
    var c := RunAll(t, NewCore(t, job), inputs);
    forall i | 0 <= i < |c.outcomes| && c.outcomes[i].Ran?
      ensures WithinPeriod(t, i, c.outcomes[i].release) && c.outcomes[i].release <= c.outcomes[i].finish
      ensures c.outcomes[i].missed <==> c.outcomes[i].finish > t.start + i * t.period + t.deadline
    {
      assert RanWell(t, c.outcomes, i);
    }
    forall i, j | 0 <= i < j < |c.outcomes| && c.outcomes[i].Ran? && c.outcomes[j].Ran?
      ensures c.outcomes[i].finish <= c.outcomes[j].release
    {
      assert Apart(c.outcomes[i], c.outcomes[j]);
    }
  }

  // ---- what a job does in a cycle ---------------------------------------------------------------------

  /** The access to issue next, the number of accesses if there is none. */
  function NextAccess(c: Core): int { if c.inProgress then c.next - 1 else c.next }

  /** An access is issued in a cycle exactly when the job is released, there is one, the window has room, its
      compute time has passed since the release, or since the last data once the job has issued, and the L1
      accepts it. A response counts before. */
  lemma {:induction false} IssuesExactlyWhen(t: Task, c: Core, x: Input)
    requires JobSound(c) && !c.done
    ensures var (r, d, k) := (if x.response then Receive(c) else c, Cycle(t, c, x), NextAccess(c));
      d.sent == r.sent + 1 <==>
        && c.clk >= c.release && k < |c.job.samples| && r.sent < t.window && x.accepted
        && c.clk >= (if c.sent + c.returned == 0 then c.release else r.lastReceived) + c.job.samples[k]
  {
  }

  /** A job ends in a cycle exactly when all its accesses have returned and its trailing compute time has
      passed. */
  lemma {:induction false} EndsExactlyWhen(t: Task, c: Core, x: Input)
    requires JobSound(c) && !c.done
    ensures var (r, d) := (if x.response then Receive(c) else c, Cycle(t, c, x));
      |d.outcomes| > |c.outcomes| <==>
        && c.clk >= c.release && NextAccess(c) == |c.job.samples| && r.sent == 0
        && c.clk >= (if c.job.samples == [] then c.release else r.lastReceived) + c.job.trailing
  {
  }

  /** What an end of a job leaves. */
  ghost predicate MovesOn(t: Task, c: Core, d: Core, finiteCores: nat, job: Job) {
    && (d.done <==> if t.total < 0 then finiteCores == 0 else d.index >= t.total)
    && (!d.done ==> d.job == job && d.next == 0 && !d.inProgress && d.sent == 0 && d.returned == 0)
  }

  ghost predicate GoesOn(c: Core, d: Core) {
    !d.done && d.job == c.job && d.release == c.release && d.index == c.index && d.outcomes == c.outcomes
  }

  lemma {:induction false} LogicMovesOn(t: Task, c: Core, accepted: bool, finiteCores: nat, job: Job)
    requires JobSound(c) && !c.done
    ensures var d := PeriodicLogic(t, c, accepted, finiteCores, job);
      if |d.outcomes| > |c.outcomes| then MovesOn(t, c, d, finiteCores, job) else GoesOn(c, d)
  {
  }

  /** What follows the end of a job: the core ends if this was its last, a free-running one if no finite core
      still runs; otherwise the next body starts from its beginning. A job that does not end goes on. */
  lemma {:induction false} WhatFollows(t: Task, c: Core, x: Input)
    requires JobSound(c) && !c.done
    ensures var d := Cycle(t, c, x);
      if |d.outcomes| > |c.outcomes| then MovesOn(t, c, d, x.finiteCores, x.job) else GoesOn(c, d)
  {
    LogicMovesOn(t, if x.response then Receive(c) else c, x.accepted, x.finiteCores, x.job);
  }

  // ---- free-running tasks -----------------------------------------------------------------------------

  /** Jobs so far ran back to back, the current one from where the last ended. */
  ghost predicate BackToBack(t: Task, c: Core) {
    && c.missedDeadlines == 0 && |c.outcomes| == c.index
    && (forall i {:trigger InChain(t, c.outcomes, i)} :: 0 <= i < |c.outcomes| ==> InChain(t, c.outcomes, i))
    && (!c.done ==> c.release == ChainEnd(t, c.outcomes, |c.outcomes|))
  }

  /** Where the job with this index begins. */
  ghost function ChainEnd(t: Task, outcomes: seq<Outcome>, i: nat): nat
    requires i <= |outcomes|
  {
    if i == 0 then t.start else if outcomes[i - 1].Ran? then outcomes[i - 1].finish else 0
  }

  ghost predicate InChain(t: Task, outcomes: seq<Outcome>, i: nat)
    requires i < |outcomes|
  {
    outcomes[i].Ran? && outcomes[i].release == ChainEnd(t, outcomes, i) && !outcomes[i].missed
    && outcomes[i].release <= outcomes[i].finish
  }

  lemma {:induction false} EndKeepsChain(t: Task, c: Core, finish: nat, finiteCores: nat, job: Job)
    requires BackToBack(t, c) && t.total < 0 && !c.done && c.release <= finish
    ensures BackToBack(t, FinishFree(c, finish, finiteCores, job))
  {
    var d := FinishFree(c, finish, finiteCores, job);
    forall i | 0 <= i < |d.outcomes| ensures InChain(t, d.outcomes, i) {
      if i < |c.outcomes| { assert InChain(t, c.outcomes, i); }
    }
  }

  lemma {:induction false} CycleKeepsChain(t: Task, c: Core, x: Input)
    requires BackToBack(t, c) && JobSound(c) && t.total < 0
    ensures BackToBack(t, Cycle(t, c, x))
  {
    if !c.done {
      var r := if x.response then Receive(c) else c;
      var d := PeriodicLogic(t, r, x.accepted, x.finiteCores, x.job);
      if Finishes(r) {
        FinishIsTimely(r);
        SameChain(t, c, r);
        EndKeepsChain(t, r, DoneAt(r), x.finiteCores, x.job);
        SameChain(t, d, Cycle(t, c, x));
      } else {
        SameChain(t, c, Cycle(t, c, x));
      }
    }
  }

  lemma {:induction false} SameChain(t: Task, c: Core, d: Core)
    requires BackToBack(t, c) && d.outcomes == c.outcomes && d.index == c.index && d.missedDeadlines == c.missedDeadlines
    requires d.done == c.done && d.release == c.release
    ensures BackToBack(t, d)
  {
    forall i | 0 <= i < |d.outcomes| ensures InChain(t, d.outcomes, i) { assert InChain(t, c.outcomes, i); }
  }

  lemma {:induction false} RunKeepsChain(t: Task, c: Core, inputs: seq<Input>)
    requires BackToBack(t, c) && JobSound(c) && t.total < 0
    ensures BackToBack(t, RunAll(t, c, inputs))
    decreases |inputs|
  {
    if inputs != [] {
      JobStaysSound(t, c, inputs[0]);
      CycleKeepsChain(t, c, inputs[0]);
      RunKeepsChain(t, Cycle(t, c, inputs[0]), inputs[1..]);
    }
  }

  /** A free-running task runs back to back: over every run each job begins where the one before it ended, the
      first at the start, and none misses a deadline. */
  lemma {:induction false} FreeRunsBackToBack(t: Task, job: Job, inputs: seq<Input>)
    requires t.total < 0
    ensures JobSound(NewCore(t, job))
    ensures var c := RunAll(t, NewCore(t, job), inputs);
      && |c.outcomes| == c.index && c.missedDeadlines == 0
      && forall i :: 0 <= i < |c.outcomes| ==>
           c.outcomes[i].Ran? && !c.outcomes[i].missed && c.outcomes[i].release == ChainEnd(t, c.outcomes, i)
  {
    RunKeepsChain(t, NewCore(t, job), inputs);
    var c := RunAll(t, NewCore(t, job), inputs);
    forall i | 0 <= i < |c.outcomes|
      ensures c.outcomes[i].Ran? && !c.outcomes[i].missed && c.outcomes[i].release == ChainEnd(t, c.outcomes, i)
    {
      assert InChain(t, c.outcomes, i);
    }
  }

  /** The compute time before the first n accesses. */
  function Work(samples: seq<nat>, n: nat): nat
    requires n <= |samples|
  {
    if n == 0 then 0 else Work(samples, n - 1) + samples[n - 1]
  }

  /** The window is kept; and with a window of one, the compute time of each access lies between the data
      before it and its issue. */
  ghost predicate Paced(t: Task, c: Core) {
    && JobSound(c) && c.sent <= t.window
    && (t.window <= 1 ==>
          && (c.returned > 0 ==> c.lastReceived >= c.release + Work(c.job.samples, c.returned))
          && (c.sent > 0 ==> c.clk > c.release + Work(c.job.samples, c.returned + 1)))
  }

  lemma {:induction false} ReceivePaces(t: Task, c: Core)
    requires Paced(t, c)
    ensures Paced(t, Receive(c))
  {
  }

  lemma {:induction false} LogicPaces(t: Task, c: Core, accepted: bool, finiteCores: nat, job: Job)
    requires Paced(t, c)
    ensures var d := PeriodicLogic(t, c, accepted, finiteCores, job); Paced(t, d.(clk := d.clk + 1))
  {
    LogicKeepsJob(t, c, accepted, finiteCores, job);
  }

  lemma {:induction false} CyclePaces(t: Task, c: Core, x: Input)
    requires Paced(t, c)
    ensures Paced(t, Cycle(t, c, x))
  {
    if !c.done {
      ReceivePaces(t, c);
      LogicPaces(t, if x.response then Receive(c) else c, x.accepted, x.finiteCores, x.job);
    }
  }

  lemma {:induction false} RunPaces(t: Task, c: Core, inputs: seq<Input>)
    requires Paced(t, c)
    ensures Paced(t, RunAll(t, c, inputs))
    decreases |inputs|
  {
    if inputs != [] {
      CyclePaces(t, c, inputs[0]);
      RunPaces(t, Cycle(t, c, inputs[0]), inputs[1..]);
    }
  }

  /** Over every run never more requests are in flight than the window allows; and an in-order core (window
      one) ends no job before its release and all its compute time. */
  lemma {:induction false} JobsTakeTheirTime(t: Task, job: Job, inputs: seq<Input>)
    ensures JobSound(NewCore(t, job))
    ensures var c := RunAll(t, NewCore(t, job), inputs);
      && c.sent <= t.window
      && (t.window <= 1 && Finishes(c) ==> DoneAt(c) >= c.release + Work(c.job.samples, |c.job.samples|) + c.job.trailing)
  {
    RunPaces(t, NewCore(t, job), inputs);
  }

  // ---- the best case ----------------------------------------------------------------------------------

  /** When the data of the first n accesses is there, if the L1 takes each at once and answers in the next
      cycle. */
  function DataAt(c: Core, n: nat): nat
    requires n <= |c.job.samples|
  {
    c.release + Work(c.job.samples, n) + n
  }

  /** When the job then finishes. */
  function BestFinish(c: Core): nat { DataAt(c, |c.job.samples|) + c.job.trailing }

  lemma {:induction false} DataInTime(c: Core, n: nat, m: nat)
    requires n <= m <= |c.job.samples|
    ensures DataAt(c, n) <= DataAt(c, m) && (n < m ==> DataAt(c, n) + c.job.samples[n] + 1 <= DataAt(c, m))
    decreases m
  {
    if n < m { DataInTime(c, n, m - 1); }
  }

  /** On the way: waiting for the next access or the end, or with one access issued in the cycle before. */
  ghost predicate OnTheWay(c: Core) {
    && JobSound(c) && !c.done && c.returned <= |c.job.samples| && (c.returned > 0 ==> c.lastReceived == DataAt(c, c.returned))
    && if c.sent == 0 then
         c.clk <= DataAt(c, c.returned) + if c.returned < |c.job.samples| then c.job.samples[c.returned] else c.job.trailing
       else c.sent == 1 && !c.inProgress && c.returned < |c.job.samples| && c.clk == DataAt(c, c.returned) + c.job.samples[c.returned] + 1
  }

  /** The job of c ended, at its best finish. */
  ghost predicate Ended(c: Core, d: Core) {
    && c.outcomes < d.outcomes && d.outcomes[|c.outcomes|].Ran?
    && d.outcomes[|c.outcomes|].release == c.release && d.outcomes[|c.outcomes|].finish == BestFinish(c)
  }

  /** With nothing in flight. */
  ghost predicate Awaits(c: Core) { OnTheWay(c) && c.sent == 0 }

  lemma {:induction false} BestReceive(c: Core)
    requires OnTheWay(c)
    ensures Awaits(Receive(c)) && Receive(c).clk == c.clk
  {
    DataInTime(c, c.returned, |c.job.samples|);
  }

  lemma {:induction false} BestLogic(t: Task, c: Core, finiteCores: nat, job: Job)
    requires Awaits(c) && t.window > 0
    ensures c.clk <= BestFinish(c)
    ensures var d := PeriodicLogic(t, c, true, finiteCores, job);
      if d.outcomes == c.outcomes then OnTheWay(d.(clk := d.clk + 1)) && d.clk == c.clk && d.job == c.job && d.release == c.release
      else c.clk == BestFinish(c) && Ended(c, d)
  {
    DataInTime(c, c.returned, |c.job.samples|);
    LogicKeepsJob(t, c, true, finiteCores, job);
  }

  /** One cycle of the best case: on the way still, or the job ends, at the best finish. */
  lemma {:induction false} BestCycle(t: Task, c: Core, x: Input)
    requires OnTheWay(c) && t.window > 0 && x.response && x.accepted
    ensures c.clk <= BestFinish(c)
    ensures var d := Cycle(t, c, x);
      if d.outcomes == c.outcomes then OnTheWay(d) && d.clk == c.clk + 1 && d.job == c.job && d.release == c.release
      else c.clk == BestFinish(c) && Ended(c, d)
  {
    BestReceive(c);
    BestLogic(t, Receive(c), x.finiteCores, x.job);
    SameBest(c, Receive(c));
  }

  lemma SameBest(c: Core, d: Core)
    requires d.job == c.job && d.release == c.release
    ensures BestFinish(d) == BestFinish(c)
  {
  }

  /** The best case, exactly: with a window of at least one, an L1 that takes every access at once and
      answers it in the next cycle, a job released now or later ends after its compute time and one cycle for
      each access. */
  lemma {:induction false} BestCase(t: Task, c: Core, inputs: seq<Input>)
    requires OnTheWay(c) && t.window > 0 && forall i :: 0 <= i < |inputs| ==> inputs[i].response && inputs[i].accepted
    requires c.clk + |inputs| == BestFinish(c) + 1
    ensures var d := RunAll(t, c, inputs);
      && c.outcomes < d.outcomes && d.outcomes[|c.outcomes|].Ran?
      && d.outcomes[|c.outcomes|].release == c.release
      && d.outcomes[|c.outcomes|].finish == c.release + Work(c.job.samples, |c.job.samples|) + |c.job.samples| + c.job.trailing
    decreases |inputs|
  {
    DataInTime(c, c.returned, |c.job.samples|);
    BestCycle(t, c, inputs[0]);
    var d := Cycle(t, c, inputs[0]);
    JobStaysSound(t, c, inputs[0]);
    if d.outcomes == c.outcomes {
      if |inputs| == 1 { BestCycle(t, d, inputs[0]); }
      BestCase(t, d, inputs[1..]);
    } else {
      assert inputs[1..] == [];
    }
  }

  /** A job that has just been released qualifies. */
  lemma ReleasedIsOnTheWay(c: Core)
    requires JobSound(c) && !c.done && c.next == 0 && c.sent == 0 && c.returned == 0 && c.clk <= c.release
    ensures OnTheWay(c)
  {
  }

  lemma StartsSound(t: Task, job: Job)
    ensures Sound(t, NewCore(t, job))
  {
    assert PeriodStart(t, 0) == t.start;
  }

  /** A task of no jobs still runs one: job 0 is released before the total is looked at. */
  lemma NoJobsStillRunsOne(t: Task, c: Core, finish: nat, job: Job)
    requires t.total == 0 && c.index == 0 && c.outcomes == [] && !c.done
    ensures var d := FinishFinite(t, c, finish, job);
      d.done && d.index == 1 && d.outcomes == [Ran(c.release, finish, finish > t.start + t.deadline)]
  {
    assert PeriodStart(t, 0) == t.start;
  }
}

module PeriodicCpu {
  import opened PeriodicTasks

  class Cpu {
    const task: Task
    var clk: nat
    var index: nat              // m_job_index
    var release: nat            // m_job_release
    var deadline: nat           // m_job_deadline
    var missedDeadlines: nat
    var done: bool
    var job: Job                // m_job_samples, m_trailing_compute
    var next: nat               // m_job_next
    var inProgress: bool
    var sent: nat
    var firstAccess: bool
    var lastReceived: nat
    ghost var core: Core

    /** The fields are those of the model. */
    ghost predicate Mirrors()
      reads this
    {
      && core.clk == clk && core.index == index && core.release == release && core.missedDeadlines == missedDeadlines
      && core.done == done && core.job == job && core.next == next && core.inProgress == inProgress && core.sent == sent
      && core.lastReceived == lastReceived
      && (!done ==> (firstAccess <==> core.sent + core.returned == 0))
      && (!done && task.total >= 0 ==> deadline == PeriodStart(task, index) + task.deadline)
    }

    ghost predicate Valid()
      reads this
    {
      Mirrors() && Sound(task, core)
    }

    constructor (task: Task, job: Job)
      requires task.total >= 0 ==> task.period > 0
      ensures Valid() && core == NewCore(task, job)
    {
      this.task := task;
      clk, index, release, deadline, missedDeadlines, done := 0, 0, task.start, task.start + task.deadline, 0, false;
      this.job, next, inProgress, sent, firstAccess, lastReceived := job, 0, false, 0, true, 0;
      core := NewCore(task, job);
      StartsSound(task, job);
    }

    /** The loop over the periods an overrun swallowed. */
    method CountSkipped(finish: nat) returns (skipped: nat)
      requires task.total >= 0
      ensures index + 1 + skipped == SkipFrom(task, index + 1, finish)
    {
      skipped := 0;
      var k := index + 1;
      while task.start + k * task.period + task.period <= finish && k < task.total
        invariant k == index + 1 + skipped && SkipFrom(task, k, finish) == SkipFrom(task, index + 1, finish)
        decreases task.total - k
      {
        skipped := skipped + 1;
        k := k + 1;
      }
    }

    method FinishJob(finish: nat, finiteCores: nat, nextJob: Job) returns (missed: bool)
      requires Mirrors() && !done
      modifies this
      ensures Mirrors() && core == PeriodicTasks.FinishJob(task, old(core), finish, finiteCores, nextJob)
      ensures missed <==> task.total >= 0 && finish > old(deadline)
    {
      if task.total < 0 {
        missed := false;
        FinishFreeJob(finish, finiteCores, nextJob);
      } else {
        missed := finish > deadline;
        FinishFiniteJob(finish, nextJob);
      }
    }

    method FinishFreeJob(finish: nat, finiteCores: nat, nextJob: Job)
      requires Mirrors() && !done && task.total < 0
      modifies this
      ensures Mirrors() && core == FinishFree(old(core), finish, finiteCores, nextJob)
    {
      core := FinishFree(core, finish, finiteCores, nextJob);
      index := index + 1;
      if finiteCores == 0 { done := true; } else { StartJob(finish, nextJob); }
    }

    method FinishFiniteJob(finish: nat, nextJob: Job)
      requires Mirrors() && !done && task.total >= 0
      modifies this
      ensures Mirrors() && core == FinishFinite(task, old(core), finish, nextJob)
    {
      core := FinishFinite(task, core, finish, nextJob);
      var skipped := CountSkipped(finish);
      missedDeadlines := missedDeadlines + skipped;
      index := index + 1 + skipped;
      if index >= task.total {
        done := true;
      } else {
        var begin := task.start + index * task.period;
        StartJob(if finish >= begin then finish else begin, nextJob);
        deadline := begin + task.deadline;
      }
    }

    /** The part of expandJob that resets the current job. */
    method StartJob(at: nat, nextJob: Job)
      modifies this`release, this`job, this`next, this`inProgress, this`sent, this`firstAccess
      ensures release == at && job == nextJob && next == 0 && !inProgress && sent == 0 && firstAccess
    {
      release, job, next, inProgress, sent, firstAccess := at, nextJob, 0, false, 0, true;
    }

    method CheckReceiveBuffer()
      requires Mirrors() && !done
      modifies this`sent, this`lastReceived, this`core
      ensures Mirrors() && core == Receive(old(core))
    {
      core := Receive(core);
      if sent > 0 { sent, lastReceived := sent - 1, clk; }
    }

    method PeriodicLogic(accepted: bool, finiteCores: nat, nextJob: Job)
      requires Mirrors() && !done && next <= |job.samples| && (inProgress ==> next > 0)
      modifies this
      ensures Mirrors() && core == PeriodicTasks.PeriodicLogic(task, old(core), accepted, finiteCores, nextJob)
    {
      ghost var after := PeriodicTasks.PeriodicLogic(task, core, accepted, finiteCores, nextJob);
      if clk < release { return; }
      if !inProgress {
        if next < |job.samples| {
          inProgress, next := true, next + 1;
        } else if sent == 0 {
          var doneAt := (if job.samples != [] then lastReceived else release) + job.trailing;
          if clk < doneAt { return; }
          var missed := FinishJob(doneAt, finiteCores, nextJob);
          return;
        } else {
          return;
        }
      }
      if sent < task.window {
        var base := if firstAccess then release else lastReceived;
        if clk >= base + job.samples[next - 1] && accepted { inProgress, sent, firstAccess := false, sent + 1, false; }
      }
      core := after;
    }

    method CycleProcess(x: Input)
      requires Valid() && (task.total >= 0 ==> task.period > 0)
      modifies this
      ensures Valid() && core == Cycle(task, old(core), x)
    {
      CycleKeeps(task, core, x);
      if !done { WorkCycle(x); }
    }

    method WorkCycle(x: Input)
      requires Mirrors() && !done && JobSound(core)
      modifies this
      ensures Mirrors() && core == Cycle(task, old(core), x)
    {
      if x.response { CheckReceiveBuffer(); }
      PeriodicLogic(x.accepted, x.finiteCores, x.job);
      core := core.(clk := clk + 1);
      clk := clk + 1;
    }
  }
}

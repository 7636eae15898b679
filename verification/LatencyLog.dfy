/** Latency accounting of one core (Logger::addRequest, the oldest and effective latencies of
    Logger::finalizeEvents): over whole runs the reported latencies add up to the busy cycles. */
module LatencyAccounts {

  /** An outstanding or retired request in issue order. */
  datatype Entry = Entry(id: nat, issue: nat, retired: bool)

  /** One core's books. `oldestSum` and `effectiveSum` add up what was reported; `busy` counts the
      cycles that began with a request outstanding, and `overtaken` the busy cycles no effective
      latency covers. */
  datatype Books = Books(now: nat, lastId: nat, queue: seq<Entry>, oldestStart: nat, checkpoint: nat,
                         oldestSum: nat, effectiveSum: int, busy: nat, overtaken: nat)

  function Max(a: nat, b: nat): nat { if a >= b then a else b }

  // ---- the operations -----------------------------------------------------------------------------

  /** addRequest; ids only grow. */
  function Issue(b: Books, id: nat): Books {
    b.(lastId := id, queue := b.queue + [Entry(id, b.now, false)], oldestStart := if b.queue == [] then b.now else b.oldestStart)
  }

  /** The position of the request, or the length of the queue. */
  function Find(queue: seq<Entry>, id: nat): (k: nat)
    ensures k <= |queue|
    ensures forall i :: 0 <= i < k ==> queue[i].id != id
    ensures k < |queue| ==> queue[k].id == id
  {
    if queue == [] || queue[0].id == id then 0 else 1 + Find(queue[1..], id)
  }

  /** Requests that retired while not oldest leave with the one ahead of them. */
  function DropRetired(queue: seq<Entry>): (r: seq<Entry>)
    ensures r != [] ==> !r[0].retired
  {
    if queue != [] && queue[0].retired then DropRetired(queue[1..]) else queue
  }

  /** The part of finalizeEvents that keeps the books; a request not outstanding is ignored. */
  function Retire(b: Books, id: nat): Books {
    var k := Find(b.queue, id);
    if k == |b.queue| || b.queue[k].retired then b
    else
      var since := Max(b.checkpoint, b.queue[k].issue);
      var c := b.(effectiveSum := b.effectiveSum + (b.now - since), checkpoint := b.now,
                  overtaken := b.overtaken + Max(since, Max(b.checkpoint, b.queue[0].issue)) - Max(b.checkpoint, b.queue[0].issue));
      if k == 0 then
        var rest := DropRetired(b.queue[1..]);
        c.(oldestSum := b.oldestSum + Max(b.now, b.oldestStart) - b.oldestStart, queue := rest,
           oldestStart := if rest != [] then b.now else b.oldestStart)
      else c.(queue := b.queue[k := b.queue[k].(retired := true)])
  }

  /** A cycle passes. */
  function Tick(b: Books): Books { b.(now := b.now + 1, busy := b.busy + if Outstanding(b) then 1 else 0) }

  predicate Outstanding(b: Books) { exists i :: 0 <= i < |b.queue| && !b.queue[i].retired }

  // ---- the invariant ------------------------------------------------------------------------------

  ghost predicate InIssueOrder(b: Books) {
    && (forall i, j {:trigger Older(b.queue[i], b.queue[j])} :: 0 <= i < j < |b.queue| ==> Older(b.queue[i], b.queue[j]))
    && (forall i {:trigger Known(b, b.queue[i])} :: 0 <= i < |b.queue| ==> Known(b, b.queue[i]))
  }

  ghost predicate Older(e: Entry, f: Entry) { e.id < f.id && e.issue <= f.issue }

  ghost predicate Known(b: Books, e: Entry) { e.id <= b.lastId && e.issue <= b.now }

  /** The running term: how long the current front has been oldest. */
  function Running(b: Books): int { if b.queue == [] then 0 else b.now - b.oldestStart }

  /** The busy time no retirement has reported yet. */
  function Unreported(b: Books): int {
    if b.queue == [] then 0 else b.now - Max(b.checkpoint, b.queue[0].issue)
  }

  ghost predicate Balanced(b: Books) {
    && InIssueOrder(b) && b.checkpoint <= b.now
    && (b.queue != [] ==> !b.queue[0].retired && b.oldestStart <= b.now)
    && b.oldestSum + Running(b) == b.busy
    && b.effectiveSum + b.overtaken + Unreported(b) == b.busy
  }

  lemma FrontIsOutstanding(b: Books)
    requires Balanced(b)
    ensures Outstanding(b) <==> b.queue != []
  {
    if b.queue != [] { assert !b.queue[0].retired; }
  }

  lemma IssueKeeps(b: Books, id: nat)
    requires Balanced(b) && id > b.lastId
    ensures Balanced(Issue(b, id))
  {
    var c := Issue(b, id);
    forall i | 0 <= i < |c.queue| ensures Known(c, c.queue[i]) { assert i < |b.queue| ==> Known(b, b.queue[i]); }
    forall i, j | 0 <= i < j < |c.queue| ensures Older(c.queue[i], c.queue[j]) {
      if j < |b.queue| { assert Older(b.queue[i], b.queue[j]); } else { assert Known(b, b.queue[i]); }
    }
    if b.queue != [] { assert Known(b, b.queue[0]); }
  }

  lemma TickKeeps(b: Books)
    requires Balanced(b)
    ensures Balanced(Tick(b))
  {
    FrontIsOutstanding(b);
    var c := Tick(b);
    forall i | 0 <= i < |c.queue| ensures Known(c, c.queue[i]) { assert Known(b, b.queue[i]); }
    forall i, j | 0 <= i < j < |c.queue| ensures Older(c.queue[i], c.queue[j]) { assert Older(b.queue[i], b.queue[j]); }
    if b.queue != [] { assert Known(b, b.queue[0]); }
  }

  /** Dropping retired entries drops a beginning of the queue, and only retired ones. */
  lemma {:induction false} DropsABeginning(queue: seq<Entry>)
    ensures |DropRetired(queue)| <= |queue| && DropRetired(queue) == queue[|queue| - |DropRetired(queue)|..]
    ensures forall i :: 0 <= i < |queue| - |DropRetired(queue)| ==> queue[i].retired
  {
    if queue != [] && queue[0].retired { DropsABeginning(queue[1..]); }
  }

  lemma DropKeepsOrder(b: Books, c: Books)
    requires InIssueOrder(b) && b.queue != [] && c.queue == DropRetired(b.queue[1..]) && c.lastId == b.lastId && c.now == b.now
    ensures InIssueOrder(c)
  {
    DropsABeginning(b.queue[1..]);
    var d := |b.queue| - |c.queue|;
    forall i | 0 <= i < |c.queue| ensures Known(c, c.queue[i]) { assert Known(b, b.queue[i + d]); }
    forall i, j | 0 <= i < j < |c.queue| ensures Older(c.queue[i], c.queue[j]) {
      assert Older(b.queue[i + d], b.queue[j + d]);
    }
  }

  lemma MarkKeepsOrder(b: Books, k: nat, c: Books)
    requires InIssueOrder(b) && k < |b.queue| && c.queue == b.queue[k := b.queue[k].(retired := true)]
    requires c.lastId == b.lastId && c.now == b.now
    ensures InIssueOrder(c)
  {
    forall i | 0 <= i < |c.queue| ensures Known(c, c.queue[i]) { assert Known(b, b.queue[i]); }
    forall i, j | 0 <= i < j < |c.queue| ensures Older(c.queue[i], c.queue[j]) { assert Older(b.queue[i], b.queue[j]); }
  }

  lemma {:induction false} RetireKeeps(b: Books, id: nat)
    requires Balanced(b)
    ensures Balanced(Retire(b, id))
  {
    var k := Find(b.queue, id);
    if k < |b.queue| && !b.queue[k].retired {
      var c := Retire(b, id);
      assert Known(b, b.queue[0]) && Known(b, b.queue[k]);
      assert k == 0 || Older(b.queue[0], b.queue[k]);
      if k == 0 {
        DropKeepsOrder(b, c);
        if c.queue != [] { assert Known(c, c.queue[0]); }
      } else {
        MarkKeepsOrder(b, k, c);
      }
    }
  }

  // ---- runs ---------------------------------------------------------------------------------------

  /** The ids of other messages may lie between two requests. */
  datatype Event = Issued(gap: nat) | Retired(id: nat) | Cycle

  function Step(b: Books, e: Event): Books {
    match e
    case Issued(gap) => Issue(b, b.lastId + 1 + gap)
    case Retired(id) => Retire(b, id)
    case Cycle => Tick(b)
  }

  function RunAll(b: Books, events: seq<Event>): Books {
    if events == [] then b else Step(RunAll(b, events[..|events| - 1]), events[|events| - 1])
  }

  lemma {:induction false} RunKeeps(b: Books, events: seq<Event>)
    requires Balanced(b)
    ensures Balanced(RunAll(b, events))
    decreases |events|
  {
    if events != [] {
      var before, e := RunAll(b, events[..|events| - 1]), events[|events| - 1];
      RunKeeps(b, events[..|events| - 1]);
      match e {
        case Issued(gap) => IssueKeeps(before, before.lastId + 1 + gap);
        case Retired(id) => RetireKeeps(before, id);
        case Cycle => TickKeeps(before);
      }
    }
  }

  /** The retirement costs no coverage: nothing older was busy alone since the last retirement. */
  ghost predicate Covered(b: Books, id: nat) {
    var k := Find(b.queue, id);
    k == |b.queue| || b.queue[k].retired || b.queue[k].issue <= Max(b.checkpoint, b.queue[0].issue)
  }

  ghost predicate AllCovered(b: Books, events: seq<Event>) {
    forall i :: 0 <= i < |events| && events[i].Retired? ==> Covered(RunAll(b, events[..i]), events[i].id)
  }

  lemma StepOvertakes(b: Books, e: Event)
    requires Balanced(b)
    ensures Step(b, e).overtaken >= b.overtaken
    ensures Step(b, e).overtaken == b.overtaken <==> (e.Retired? ==> Covered(b, e.id))
  {
  }

  lemma {:induction false} OvertakenIff(b: Books, events: seq<Event>)
    requires Balanced(b)
    ensures RunAll(b, events).overtaken >= b.overtaken
    ensures RunAll(b, events).overtaken == b.overtaken <==> AllCovered(b, events)
    decreases |events|
  {
    if events != [] {
      var n := |events| - 1;
      var before := events[..n];
      RunKeeps(b, before);
      OvertakenIff(b, before);
      StepOvertakes(RunAll(b, before), events[n]);
      CoveredSplits(b, events);
    }
  }

  lemma {:induction false} CoveredSplits(b: Books, events: seq<Event>)
    requires events != []
    ensures var (before, e) := (events[..|events| - 1], events[|events| - 1]);
      AllCovered(b, events) <==> AllCovered(b, before) && (e.Retired? ==> Covered(RunAll(b, before), e.id))
  {
    var n := |events| - 1;
    var before := events[..n];
    forall i | 0 <= i < n ensures before[..i] == events[..i] && before[i] == events[i] {}
  }

  /** Before the first request. */
  predicate Empty(b: Books) {
    && b.queue == [] && b.checkpoint <= b.now
    && b.oldestSum == 0 && b.effectiveSum == 0 && b.busy == 0 && b.overtaken == 0
  }

  /** What balanced books say. */
  ghost predicate AddsUp(b: Books) {
    && b.oldestSum + Running(b) == b.busy && Running(b) >= 0
    && (b.queue != [] ==> !b.queue[0].retired)
    && 0 <= b.effectiveSum <= b.busy
  }

  /** Over every run of a core: the reported oldest latencies and the running term of the current
      front add up to the cycles with a request outstanding; the front never is a retired request;
      and the reported effective latencies stay within the busy cycles. */
  lemma {:induction false} LatenciesAddUp(b: Books, events: seq<Event>)
    requires Empty(b)
    ensures AddsUp(RunAll(b, events))
  {
    RunKeeps(b, events);
    EffectiveGrows(b, events);
    UnreportedIsTime(RunAll(b, events));
  }

  lemma UnreportedIsTime(b: Books)
    requires Balanced(b)
    ensures Unreported(b) >= 0 && Running(b) >= 0
  {
    if b.queue != [] { assert Known(b, b.queue[0]); }
  }

  lemma StepReports(b: Books, e: Event)
    requires Balanced(b)
    ensures b.effectiveSum <= Step(b, e).effectiveSum
  {
    if e.Retired? {
      var k := Find(b.queue, e.id);
      if k < |b.queue| { assert Known(b, b.queue[k]); }
    }
  }

  lemma {:induction false} EffectiveGrows(b: Books, events: seq<Event>)
    requires Balanced(b)
    ensures b.effectiveSum <= RunAll(b, events).effectiveSum
    decreases |events|
  {
    if events != [] {
      RunKeeps(b, events[..|events| - 1]);
      EffectiveGrows(b, events[..|events| - 1]);
      StepReports(RunAll(b, events[..|events| - 1]), events[|events| - 1]);
    }
  }

  // ---- what one report says ---------------------------------------------------------------------------

  /** The request is the oldest in the system. */
  predicate IsOldest(b: Books, id: nat) { b.queue != [] && b.queue[0].id == id }

  /** The request is in the system. */
  predicate InSystem(b: Books, id: nat) { exists i :: 0 <= i < |b.queue| && b.queue[i].id == id && !b.queue[i].retired }

  /** The cycles of a run that began with this request the oldest. */
  function CyclesOldest(b: Books, events: seq<Event>, id: nat): nat {
    if events == [] then 0
    else
      var before := events[..|events| - 1];
      CyclesOldest(b, before, id) + if events[|events| - 1].Cycle? && IsOldest(RunAll(b, before), id) then 1 else 0
  }

  /** The cycles since any request last retired that began with this one in the system. */
  function CyclesSince(b: Books, events: seq<Event>, id: nat): nat {
    if events == [] then 0
    else
      var before, e := events[..|events| - 1], events[|events| - 1];
      match e
      case Retired(other) => if InSystem(RunAll(b, before), other) then 0 else CyclesSince(b, before, id)
      case Cycle => CyclesSince(b, before, id) + if InSystem(RunAll(b, before), id) then 1 else 0
      case Issued(_) => CyclesSince(b, before, id)
  }

  /** Of one entry the counts say what the books say. */
  ghost predicate EntryAgrees(b: Books, events: seq<Event>, c: Books, i: nat)
    requires i < |c.queue|
  {
    && CyclesOldest(b, events, c.queue[i].id) == (if i == 0 then c.now - c.oldestStart else 0)
    && (!c.queue[i].retired ==> CyclesSince(b, events, c.queue[i].id) == c.now - Max(c.checkpoint, c.queue[i].issue))
  }

  ghost predicate NotYet(b: Books, events: seq<Event>, id: nat) { CyclesOldest(b, events, id) == 0 && CyclesSince(b, events, id) == 0 }

  /** The books agree with the two counts. */
  ghost predicate CountsAgree(b: Books, events: seq<Event>, c: Books) {
    && (forall i {:trigger EntryAgrees(b, events, c, i)} :: 0 <= i < |c.queue| ==> EntryAgrees(b, events, c, i))
    && (forall id: nat {:trigger NotYet(b, events, id)} :: id > c.lastId ==> NotYet(b, events, id))
  }

  /** The place of a request in the queue is found by its id. */
  lemma {:induction false} FoundAt(b: Books, k: nat)
    requires InIssueOrder(b) && k < |b.queue|
    ensures Find(b.queue, b.queue[k].id) == k
  {
    var j := Find(b.queue, b.queue[k].id);
    assert j < k ==> Older(b.queue[j], b.queue[k]);
  }

  lemma {:induction false} InSystemIs(b: Books, id: nat)
    requires InIssueOrder(b)
    ensures InSystem(b, id) <==> Find(b.queue, id) < |b.queue| && !b.queue[Find(b.queue, id)].retired
    ensures forall i, j :: 0 <= i < j < |b.queue| ==> b.queue[i].id != b.queue[j].id
    ensures forall i :: 0 <= i < |b.queue| ==> b.queue[i].id <= b.lastId && b.queue[i].issue <= b.now
  {
    forall i, j | 0 <= i < j < |b.queue| ensures b.queue[i].id != b.queue[j].id { assert Older(b.queue[i], b.queue[j]); }
    forall i | 0 <= i < |b.queue| ensures b.queue[i].id <= b.lastId && b.queue[i].issue <= b.now { assert Known(b, b.queue[i]); }
    if i :| 0 <= i < |b.queue| && b.queue[i].id == id && !b.queue[i].retired { FoundAt(b, i); }
  }

  lemma {:induction false} IssueCounts(b: Books, events: seq<Event>, before: Books)
    requires events != [] && events[|events| - 1].Issued? && before == RunAll(b, events[..|events| - 1])
    requires Balanced(before) && CountsAgree(b, events[..|events| - 1], before)
    ensures CountsAgree(b, events, RunAll(b, events))
  {
    var past, c := events[..|events| - 1], RunAll(b, events);
    forall i | 0 <= i < |c.queue| ensures EntryAgrees(b, events, c, i) {
      if i < |before.queue| { assert EntryAgrees(b, past, before, i); } else { assert NotYet(b, past, c.queue[i].id); }
    }
    forall id: nat | id > c.lastId ensures NotYet(b, events, id) { assert NotYet(b, past, id); }
  }

  lemma {:induction false} TickCounts(b: Books, events: seq<Event>, before: Books)
    requires events != [] && events[|events| - 1].Cycle? && before == RunAll(b, events[..|events| - 1])
    requires Balanced(before) && CountsAgree(b, events[..|events| - 1], before)
    ensures CountsAgree(b, events, RunAll(b, events))
  {
    var past, c := events[..|events| - 1], RunAll(b, events);
    InSystemIs(before, 0);
    forall i | 0 <= i < |c.queue| ensures EntryAgrees(b, events, c, i) {
      assert EntryAgrees(b, past, before, i);
      InSystemIs(before, c.queue[i].id);
      FoundAt(before, i);
      assert IsOldest(before, c.queue[i].id) <==> i == 0;
    }
    forall id: nat | id > c.lastId ensures NotYet(b, events, id) {
      assert NotYet(b, past, id);
      assert !InSystem(before, id) && !IsOldest(before, id);
    }
  }

  /** What a retirement leaves of an entry. */
  lemma {:induction false} RetireLeaves(before: Books, id: nat, i: nat) returns (j: nat)
    requires Balanced(before) && InSystem(before, id) && i < |Retire(before, id).queue|
    ensures var c := Retire(before, id);
      && c.checkpoint == before.now == c.now && c.lastId == before.lastId
      && j < |before.queue| && c.queue[i].id == before.queue[j].id && c.queue[i].issue == before.queue[j].issue
      && (j == 0 ==> i == 0 && c.oldestStart == before.oldestStart) && (i == 0 && j > 0 ==> c.oldestStart == c.now)
      && (i > 0 ==> j > 0) && before.queue[j].issue <= before.now
  {
    InSystemIs(before, id);
    var c := Retire(before, id);
    j := i;
    if Find(before.queue, id) == 0 {
      DropsABeginning(before.queue[1..]);
      j := |before.queue| - |c.queue| + i;
      assert c.queue[i] == before.queue[1..][|before.queue| - 1 - |c.queue| + i];
    }
  }

  lemma {:induction false} RetireCounts(b: Books, events: seq<Event>, before: Books)
    requires events != [] && events[|events| - 1].Retired? && before == RunAll(b, events[..|events| - 1])
    requires Balanced(before) && CountsAgree(b, events[..|events| - 1], before)
    ensures CountsAgree(b, events, RunAll(b, events))
  {
    var past, c, id := events[..|events| - 1], RunAll(b, events), events[|events| - 1].id;
    InSystemIs(before, id);
    forall i | 0 <= i < |c.queue| ensures EntryAgrees(b, events, c, i) {
      if InSystem(before, id) {
        var j := RetireLeaves(before, id, i);
        assert EntryAgrees(b, past, before, j);
      } else {
        assert EntryAgrees(b, past, before, i);
      }
    }
    forall other: nat | other > c.lastId ensures NotYet(b, events, other) { assert NotYet(b, past, other); }
  }

  lemma {:induction false} RunCounts(b: Books, events: seq<Event>)
    requires Empty(b)
    ensures Balanced(RunAll(b, events)) && CountsAgree(b, events, RunAll(b, events))
    decreases |events|
  {
    RunKeeps(b, events);
    if events != [] {
      var before := RunAll(b, events[..|events| - 1]);
      RunCounts(b, events[..|events| - 1]);
      match events[|events| - 1]
      case Issued(_) => IssueCounts(b, events, before);
      case Retired(_) => RetireCounts(b, events, before);
      case Cycle => TickCounts(b, events, before);
    }
  }

  /** Marking or dropping retired entries leaves the others. */
  lemma {:induction false} DropLeavesOthers(queue: seq<Entry>, other: nat)
    ensures (exists i :: 0 <= i < |DropRetired(queue)| && DropRetired(queue)[i].id == other && !DropRetired(queue)[i].retired)
      <==> exists i :: 0 <= i < |queue| && queue[i].id == other && !queue[i].retired
  {
    var rest, gone := DropRetired(queue), |queue| - |DropRetired(queue)|;
    DropsABeginning(queue);
    if i :| 0 <= i < |rest| && rest[i].id == other && !rest[i].retired { assert queue[i + gone] == rest[i]; }
    if i :| 0 <= i < |queue| && queue[i].id == other && !queue[i].retired { assert rest[i - gone] == queue[i]; }
  }

  lemma {:induction false} FrontLeaves(queue: seq<Entry>, other: nat)
    requires queue != [] && queue[0].id != other
    ensures (exists i :: 0 <= i < |queue| && queue[i].id == other && !queue[i].retired)
      <==> exists i :: 0 <= i < |queue[1..]| && queue[1..][i].id == other && !queue[1..][i].retired
  {
    if i :| 0 <= i < |queue| && queue[i].id == other && !queue[i].retired { assert queue[1..][i - 1] == queue[i]; }
    if i :| 0 <= i < |queue[1..]| && queue[1..][i].id == other && !queue[1..][i].retired { assert queue[i + 1] == queue[1..][i]; }
  }

  lemma {:induction false} MarkLeavesOthers(b: Books, k: nat, other: nat)
    requires InIssueOrder(b) && k < |b.queue|
    ensures InSystem(b.(queue := b.queue[k := b.queue[k].(retired := true)]), other) <==> InSystem(b, other) && other != b.queue[k].id
  {
    var marked := b.queue[k := b.queue[k].(retired := true)];
    InSystemIs(b, other);
    if i :| 0 <= i < |b.queue| && b.queue[i].id == other && !b.queue[i].retired && i != k { assert marked[i] == b.queue[i]; }
    if i :| 0 <= i < |marked| && marked[i].id == other && !marked[i].retired { assert i != k && b.queue[i] == marked[i]; }
  }

  /** A request leaves the system exactly when it retires itself; the others stay, and the retirement of a
      request that is not there changes nothing. */
  lemma {:induction false} OnlyTheRetiredLeaves(b: Books, id: nat, other: nat)
    requires Balanced(b)
    ensures InSystem(Retire(b, id), other) <==> InSystem(b, other) && other != id
    ensures !InSystem(b, id) ==> Retire(b, id) == b
  {
    InSystemIs(b, id);
    if InSystem(b, id) {
      if Find(b.queue, id) == 0 {
        DropLeavesOthers(b.queue[1..], other);
        if other != id { FrontLeaves(b.queue, other); } else { FrontIsGone(b); }
      } else {
        MarkLeavesOthers(b, Find(b.queue, id), other);
      }
    }
  }

  lemma {:induction false} FrontIsGone(b: Books)
    requires InIssueOrder(b) && b.queue != []
    ensures forall i :: 0 <= i < |b.queue[1..]| ==> b.queue[1..][i].id != b.queue[0].id
  {
    forall i | 0 <= i < |b.queue[1..]| ensures b.queue[1..][i].id != b.queue[0].id { assert Older(b.queue[0], b.queue[i + 1]); }
  }

  /** What is reported of each request, over every run: as oldest latency the cycles during which it was the
      oldest in the system, none if it retires behind another; and as effective latency the cycles it was in
      the system since the last retirement. */
  lemma {:induction false} ReportsAreCycles(b: Books, events: seq<Event>, id: nat)
    requires Empty(b) && InSystem(RunAll(b, events), id)
    ensures var (c, d) := (RunAll(b, events), Retire(RunAll(b, events), id));
      && d.oldestSum - c.oldestSum == (if IsOldest(c, id) then CyclesOldest(b, events, id) else 0)
      && d.effectiveSum - c.effectiveSum == CyclesSince(b, events, id)
  {
    RunCounts(b, events);
    var c := RunAll(b, events);
    InSystemIs(c, id);
    var k := Find(c.queue, id);
    assert EntryAgrees(b, events, c, k) && EntryAgrees(b, events, c, 0);
  }

  /** Once nothing is outstanding, the effective latencies add up to the busy cycles exactly when
      every retired request was issued no later than the last retirement before it or together with
      the oldest request then outstanding. */
  lemma {:induction false} EffectiveCoversIff(b: Books, events: seq<Event>)
    requires Empty(b) && RunAll(b, events).queue == []
    ensures RunAll(b, events).oldestSum == RunAll(b, events).busy
    ensures RunAll(b, events).effectiveSum == RunAll(b, events).busy <==> AllCovered(b, events)
  {
    RunKeeps(b, events);
    OvertakenIff(b, events);
    NothingOutstanding(RunAll(b, events));
  }

  lemma NothingOutstanding(b: Books)
    requires Balanced(b) && b.queue == []
    ensures b.oldestSum == b.busy && b.effectiveSum + b.overtaken == b.busy
  {
  }

  /** Requests that retire in issue order qualify: each is the front when it retires. */
  lemma IssueOrderIsCovered(b: Books, id: nat)
    requires b.queue != [] ==> b.queue[0].id == id
    ensures Covered(b, id)
  {
  }

  /** Out of order, busy time goes unreported: the younger of two requests retires first, in the
      cycle it was issued in, and then the older one. */
  lemma {:induction false} OvertakingLosesTime(b: Books)
    requires b.queue == [Entry(1, 0, false), Entry(2, 1, false)] && b.now == 1 && b.checkpoint == 0 && b.oldestStart == 0
    requires b.oldestSum == 0 && b.effectiveSum == 0 && b.overtaken == 0 && b.busy == 1 && b.lastId == 2
    ensures Balanced(b)
    ensures var c := Retire(Retire(b, 2), 1);
      c.queue == [] && c.oldestSum == c.busy == 1 && c.effectiveSum == 0 && c.overtaken == 1
  {
    assert Find(b.queue, 2) == 1 by { assert b.queue[1..] == [Entry(2, 1, false)]; }
    var c := Retire(b, 2);
    assert c.queue == [Entry(1, 0, false), Entry(2, 1, true)] && c.checkpoint == 1 && c.effectiveSum == 0;
    assert c.queue[1..] == [Entry(2, 1, true)] && c.queue[1..][1..] == [];
    assert DropRetired(c.queue[1..]) == DropRetired([]) == [];
    assert Find(c.queue, 1) == 0;
  }
}

module LatencyLog {
  import opened LatencyAccounts

  class CoreLog {
    var now: nat
    var queue: seq<Entry>       // issue_order
    var oldestStart: nat
    var checkpoint: nat         // last_checkpoint
    var effectiveSum: int       // average_latency before the division
    ghost var books: Books

    ghost predicate Valid()
      reads this
    {
      && books.now == now && books.queue == queue && books.oldestStart == oldestStart && books.checkpoint == checkpoint
      && books.effectiveSum == effectiveSum && Balanced(books)
    }

    constructor ()
      ensures Valid() && Empty(books) && books.now == 0
    {
      now, queue, oldestStart, checkpoint, effectiveSum := 0, [], 0, 0, 0;
      books := Books(0, 0, [], 0, 0, 0, 0, 0, 0);
    }

    method SetClkCount()
      requires Valid()
      modifies this`now, this`books
      ensures Valid() && books == Tick(old(books))
    {
      TickKeeps(books);
      now := now + 1;
      books := Tick(books);
    }

    method AddRequest(id: nat)
      requires Valid() && id > books.lastId
      modifies this`queue, this`oldestStart, this`books
      ensures Valid() && books == Issue(old(books), id)
    {
      IssueKeeps(books, id);
      books := Issue(books, id);
      queue := queue + [Entry(id, now, false)];
      if |queue| == 1 { oldestStart := now; }
    }

    /** The head-of-queue part of finalizeEvents. */
    method RetireFromQueue(id: nat) returns (oldest: nat)
      requires Find(queue, id) < |queue| && oldestStart <= now
      modifies this`queue, this`oldestStart
      ensures var k := Find(old(queue), id);
        if k == 0 then
          && oldest == now - old(oldestStart) && queue == DropRetired(old(queue)[1..])
          && oldestStart == if queue != [] then now else old(oldestStart)
        else
          && oldest == 0 && queue == old(queue)[k := old(queue)[k].(retired := true)] && oldestStart == old(oldestStart)
    {
      if queue[0].id == id {
        oldest := now - oldestStart;
        queue := queue[1..];
        while queue != [] && queue[0].retired
          invariant DropRetired(queue) == DropRetired(old(queue)[1..]) && oldestStart == old(oldestStart)
          decreases |queue|
        {
          queue := queue[1..];
        }
        if queue != [] { oldestStart := now; }
      } else {
        oldest := 0;
        var k := 0;
        while queue[k].id != id
          invariant k <= Find(queue, id) < |queue| && queue == old(queue) && oldestStart == old(oldestStart)
          decreases |queue| - k
        {
          k := k + 1;
        }
        queue := queue[k := queue[k].(retired := true)];
      }
    }

    /** finalizeEvents of an outstanding request, given the cycle its event log shows it entered at:
        its oldest and effective latencies. */
    method FinalizeEvents(id: nat, issue: nat) returns (oldest: nat, effective: int)
      requires Valid() && Find(queue, id) < |queue| && !queue[Find(queue, id)].retired
      requires issue == queue[Find(queue, id)].issue
      modifies this
      ensures Valid() && books == Retire(old(books), id)
      ensures oldest == books.oldestSum - old(books).oldestSum && effective == books.effectiveSum - old(books).effectiveSum
    {
      RetireKeeps(books, id);
      effective := now - (if checkpoint >= issue then checkpoint else issue);
      books := Retire(books, id);
      oldest := RetireFromQueue(id);
      effectiveSum := effectiveSum + effective;
      checkpoint := now;
    }
  }
}

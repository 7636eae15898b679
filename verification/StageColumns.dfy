/** The stage columns of one request (Logger::finalizeEvents): milestones found in its event log, and
    when the eight columns add up to the total latency. */
module StageModel {

  datatype Role = Cpu | L1 | ReqBus | RespBus | Llc | MemBus | Dram | Other

  datatype Phase = Enter | Service | Exit

  datatype LogEvent = LogEvent(role: Role, phase: Phase, cycle: nat)

  /** -1 stands for a milestone that is absent. */
  datatype Milestones = Milestones(issue: int, l1a: int, reqb: int, llca: int, memout: int, dre: int, drx: int,
                                   memin: int, llcs: int, llce: int, respb: int, rx: int)

  datatype Columns = Columns(l1s: nat, rqb: nat, l2s: nat, l2d: nat, drm: nat, l2a: nat, rsb: nat, l1acc: nat)
  {
    function Sum(): nat { l1s + rqb + l2s + l2d + drm + l2a + rsb + l1acc }
  }

  // ---- milestones ---------------------------------------------------------------------------------

  predicate Is(e: LogEvent, role: Role, phase: Phase) { e.role == role && e.phase == phase }

  /** The cycles at which the role reached the phase, in the order of the log. */
  function Stamps(log: seq<LogEvent>, role: Role, phase: Phase): seq<nat> {
    if log == [] then []
    else
      var e := log[|log| - 1];
      Stamps(log[..|log| - 1], role, phase) + if Is(e, role, phase) then [e.cycle] else []
  }

  function Nth(stamps: seq<nat>, n: nat): int { if n < |stamps| then stamps[n] else -1 }

  function First(stamps: seq<nat>): int { Nth(stamps, 0) }

  function Last(stamps: seq<nat>): int { if stamps == [] then -1 else stamps[|stamps| - 1] }

  /** Of a supplier's stamps, the last one before the response-bus grant. */
  function LastBefore(stamps: seq<nat>, bound: int, otherwise: int): int {
    if stamps == [] then otherwise
    else if stamps[|stamps| - 1] < bound then stamps[|stamps| - 1]
    else LastBefore(stamps[..|stamps| - 1], bound, otherwise)
  }

  /** Another core's L1 answered: no LLC emit, but a grant on the response bus. */
  predicate CacheToCache(log: seq<LogEvent>) {
    Last(Stamps(log, Llc, Exit)) < 0 && Last(Stamps(log, RespBus, Exit)) >= 0
  }

  function MilestonesOf(log: seq<LogEvent>): Milestones {
    var respb := Last(Stamps(log, RespBus, Exit));
    var supplied := CacheToCache(log);
    var llcs := if supplied then LastBefore(Stamps(log, L1, Service), respb, First(Stamps(log, Llc, Service)))
                else First(Stamps(log, Llc, Service));
    var llce := if supplied then LastBefore(Stamps(log, L1, Exit), respb, -1) else Last(Stamps(log, Llc, Exit));
    var llca := if supplied && llcs >= 0 then llcs else First(Stamps(log, Llc, Enter));
    Milestones(First(Stamps(log, Cpu, Enter)), First(Stamps(log, L1, Enter)), First(Stamps(log, ReqBus, Exit)), llca,
               Nth(Stamps(log, MemBus, Exit), 0), First(Stamps(log, Dram, Enter)), Last(Stamps(log, Dram, Exit)),
               Nth(Stamps(log, MemBus, Exit), 1), llcs, llce, respb, Last(Stamps(log, Cpu, Exit)))
  }

  // ---- columns ------------------------------------------------------------------------------------

  /** The clamped difference of two milestones. */
  function Cd(a: int, b: int): nat { if a >= 0 && b >= 0 && a > b then a - b else 0 }

  function MaxOf(a: int, b: int): int { if a >= b then a else b }

  /** A DRAM miss crosses the memory bus. */
  predicate Miss(m: Milestones) { m.memout >= 0 }

  function ColumnsOf(m: Milestones): Columns {
    var stamped := m.dre >= 0 && m.drx >= 0;
    var l2d := if !Miss(m) then 0 else if stamped then Cd(m.dre, m.llca) + Cd(m.memin, m.drx) else Cd(m.memout, m.llca);
    var drm := if !Miss(m) then 0 else if stamped then Cd(m.drx, m.dre) else Cd(m.memin, m.memout);
    var noResponder := m.llce < 0 && m.llca >= 0 && m.respb >= 0;
    var l2a := if noResponder then Cd(m.respb, m.llca) else Cd(m.llcs, if Miss(m) then m.memin else m.llca);
    var rsb := if noResponder then 0 else Cd(m.respb, m.llce);
    Columns(Cd(m.l1a, m.issue), Cd(m.reqb, m.l1a), Cd(m.llca, m.reqb), l2d, drm, l2a, rsb, Cd(m.rx, MaxOf(m.l1a, m.respb)))
  }

  // ---- the check in the code ----------------------------------------------------------------------

  function If(x: int): seq<int> { if x >= 0 then [x] else [] }

  /** Up to the responder's admission, around memory, and from the service on. */
  function Front(m: Milestones): seq<int> { [m.issue] + If(m.l1a) + If(m.reqb) + If(m.llca) }

  function Middle(m: Milestones): seq<int> { (If(m.memout) + If(m.dre)) + (If(m.drx) + If(m.memin)) }

  function Back(m: Milestones): seq<int> { If(m.llcs) + If(m.llce) + If(m.respb) + [m.rx] }

  /** The milestones present, in canonical order. */
  function Present(m: Milestones): seq<int> { Front(m) + (Middle(m) + Back(m)) }

  /** The differences of neighbours add up to the difference of the ends, whatever lies between. */
  function Telescoped(mil: seq<int>): int
    requires mil != []
  {
    if |mil| == 1 then 0 else Telescoped(mil[..|mil| - 1]) + (mil[|mil| - 1] - mil[|mil| - 2])
  }

  lemma {:induction false} Telescopes(mil: seq<int>)
    requires mil != []
    ensures Telescoped(mil) == mil[|mil| - 1] - mil[0]
  {
    if |mil| > 1 { Telescopes(mil[..|mil| - 1]); }
  }

  ghost predicate NonDecreasing(mil: seq<int>) { forall i :: 1 <= i < |mil| ==> mil[i - 1] <= mil[i] }

  /** The milestones present never go back. */
  ghost predicate Monotone(m: Milestones) { m.issue >= 0 && m.rx >= 0 && NonDecreasing(Present(m)) }

  lemma {:induction false} NeverBack(mil: seq<int>, i: nat, j: nat)
    requires NonDecreasing(mil) && i <= j < |mil|
    ensures mil[i] <= mil[j]
    decreases j
  {
    if i < j { NeverBack(mil, i, j - 1); }
  }

  /** Of two neighbouring parts the first is below the second. */
  lemma PartsOrdered(a: seq<int>, b: seq<int>, x: int, y: int)
    requires NonDecreasing(a + b) && x in a && y in b
    ensures x <= y
  {
    var i :| 0 <= i < |a| && a[i] == x;
    var j :| 0 <= j < |b| && b[j] == y;
    assert (a + b)[i] == x && (a + b)[|a| + j] == y;
    NeverBack(a + b, i, |a| + j);
  }

  // ---- the columns tile ---------------------------------------------------------------------------

  /** Every milestone on the way to a responder and back. */
  predicate Complete(m: Milestones) {
    && m.l1a >= 0 && m.reqb >= 0 && m.llca >= 0 && m.llcs >= 0 && m.llce >= 0 && m.respb >= 0
    && (Miss(m) ==> m.memin >= 0)
  }

  function Total(m: Milestones): int { m.rx - m.issue }

  /** The present milestones of a complete request, spelled out. */
  ghost predicate InOrder(m: Milestones) {
    && m.issue <= m.l1a <= m.reqb <= m.llca <= m.llcs <= m.llce <= m.respb <= m.rx
    && (Miss(m) ==> m.llca <= m.memout <= m.memin <= m.llcs)
    && (m.dre >= 0 && m.drx >= 0 ==> m.llca <= m.dre <= m.drx <= m.llcs)
    && (m.dre >= 0 && m.drx >= 0 && Miss(m) ==> m.memout <= m.dre && m.drx <= m.memin)
  }

  /** Two parts of the list in order: each is in order, and what is present in the first is below
      what is present in the second. */
  lemma Parts(a: seq<int>, b: seq<int>)
    requires NonDecreasing(a + b)
    ensures NonDecreasing(a) && NonDecreasing(b)
    ensures forall x, y :: x in a && y in b ==> x <= y
  {
    forall i | 1 <= i < |a| ensures a[i - 1] <= a[i] { assert (a + b)[i - 1] <= (a + b)[i]; }
    forall i | 1 <= i < |b| ensures b[i - 1] <= b[i] { assert (a + b)[|a| + i - 1] <= (a + b)[|a| + i]; }
    forall x, y | x in a && y in b ensures x <= y { PartsOrdered(a, b, x, y); }
  }

  lemma IfHas(x: int)
    ensures x >= 0 ==> x in If(x)
  {
  }

  lemma MiddlePairs(m: Milestones, middle: seq<int>)
    requires middle == (If(m.memout) + If(m.dre)) + (If(m.drx) + If(m.memin)) && NonDecreasing(middle)
    ensures m.memout >= 0 && m.memin >= 0 ==> m.memout <= m.memin
    ensures m.dre >= 0 && m.drx >= 0 ==> m.dre <= m.drx
    ensures m.memout >= 0 && m.dre >= 0 ==> m.memout <= m.dre
    ensures m.memin >= 0 && m.drx >= 0 ==> m.drx <= m.memin
  {
    Parts(If(m.memout) + If(m.dre), If(m.drx) + If(m.memin));
    Parts(If(m.memout), If(m.dre));
    Parts(If(m.drx), If(m.memin));
    IfHas(m.memout); IfHas(m.dre); IfHas(m.drx); IfHas(m.memin);
    assert m.memout >= 0 ==> m.memout in If(m.memout) + If(m.dre);
    assert m.dre >= 0 ==> m.dre in If(m.memout) + If(m.dre);
    assert m.drx >= 0 ==> m.drx in If(m.drx) + If(m.memin);
    assert m.memin >= 0 ==> m.memin in If(m.drx) + If(m.memin);
  }

  lemma MiddleMembers(m: Milestones, middle: seq<int>)
    requires middle == (If(m.memout) + If(m.dre)) + (If(m.drx) + If(m.memin))
    ensures m.memout >= 0 ==> m.memout in middle
    ensures m.dre >= 0 ==> m.dre in middle
    ensures m.drx >= 0 ==> m.drx in middle
    ensures m.memin >= 0 ==> m.memin in middle
  {
  }

  /** The milestones around the memory excursion. */
  lemma EndsInOrder(m: Milestones, front: seq<int>, middle: seq<int>, back: seq<int>)
    requires front == [m.issue, m.l1a, m.reqb, m.llca] && back == [m.llcs, m.llce, m.respb, m.rx]
    requires NonDecreasing(front + (middle + back))
    ensures m.issue <= m.l1a <= m.reqb <= m.llca <= m.llcs <= m.llce <= m.respb <= m.rx
    ensures NonDecreasing(middle) && forall x :: x in middle ==> m.llca <= x <= m.llcs
  {
    Parts(front, middle + back);
    Parts(middle, back);
    assert front[0] <= front[1] <= front[2] <= front[3];
    assert back[0] <= back[1] <= back[2] <= back[3];
    assert m.llca in front && m.llcs in back && m.llcs in middle + back;
    forall x | x in middle ensures m.llca <= x <= m.llcs { assert x in middle + back; }
  }

  lemma CompleteEnds(m: Milestones)
    requires Complete(m) && Monotone(m)
    ensures Front(m) == [m.issue, m.l1a, m.reqb, m.llca] && Back(m) == [m.llcs, m.llce, m.respb, m.rx]
  {
  }

  lemma {:induction false} CompleteInOrder(m: Milestones)
    requires Complete(m) && Monotone(m)
    ensures InOrder(m)
  {
    CompleteEnds(m);
    EndsInOrder(m, Front(m), Middle(m), Back(m));
    MiddlePairs(m, Middle(m));
    MiddleMembers(m, Middle(m));
  }

  /** LLC hits, misses with or without DRAM stamps, and cache-to-cache supplies: the eight columns
      miss the total by exactly the responder's time from service to emit. */
  lemma ColumnsMissTheService(m: Milestones)
    requires Complete(m) && Monotone(m)
    ensures ColumnsOf(m).Sum() + (m.llce - m.llcs) == Total(m)
  {
    CompleteInOrder(m);
    OrderedColumns(m);
  }

  lemma {:induction false} OrderedColumns(m: Milestones)
    requires Complete(m) && InOrder(m) && m.issue >= 0
    ensures ColumnsOf(m).Sum() + (m.llce - m.llcs) == Total(m)
  {
  }

  /** So they tile exactly when the responder's SERVICE and EXIT coincide. */
  lemma ColumnsTileIff(m: Milestones)
    requires Complete(m) && Monotone(m)
    ensures ColumnsOf(m).Sum() == Total(m) <==> m.llcs == m.llce
  {
    ColumnsMissTheService(m);
  }

  lemma HitInOrder(m: Milestones, front: seq<int>, middle: seq<int>, back: seq<int>)
    requires front == [m.issue, m.l1a] && back == [m.rx] && NonDecreasing(front + (middle + back))
    ensures m.issue <= m.l1a <= m.rx
  {
    Parts(front, middle + back);
    assert front[0] <= front[1];
    assert m.l1a in front && m.rx in middle + back;
  }

  // ---- who held the request when ----------------------------------------------------------------------

  /** Where a request is in one cycle: the eight columns, and the responder's service, which has none. */
  datatype Stage = AtL1 | OnReqBus | AtL2 | OnMemBus | AtDram | InL2 | InService | OnRespBus | BackAtL1

  /** The stage that holds a complete request in cycle t. A miss is on the memory bus until the DRAM stamps
      it in and again once it has stamped it out; without these stamps the bus has it until its first
      crossing and the DRAM until the second. */
  ghost function Holder(m: Milestones, t: int): Stage {
    if t < m.l1a then AtL1
    else if t < m.reqb then OnReqBus
    else if t < m.llca then AtL2
    else if Miss(m) && t < m.memin then
      (if m.dre >= 0 && m.drx >= 0 then (if m.dre <= t < m.drx then AtDram else OnMemBus) else if t < m.memout then OnMemBus else AtDram)
    else if t < m.llcs then InL2
    else if t < m.llce then InService
    else if t < m.respb then OnRespBus
    else BackAtL1
  }

  /** How many cycles from a on, before b, the stage holds it. */
  ghost function Cycles(m: Milestones, s: Stage, a: int, b: int): nat
    requires a <= b
    decreases b - a
  {
    if a == b then 0 else Cycles(m, s, a, b - 1) + if Holder(m, b - 1) == s then 1 else 0
  }

  lemma {:induction false} CyclesSplit(m: Milestones, s: Stage, a: int, b: int, c: int)
    requires a <= b <= c
    ensures Cycles(m, s, a, c) == Cycles(m, s, a, b) + Cycles(m, s, b, c)
    decreases c - b
  {
    if b < c { CyclesSplit(m, s, a, b, c - 1); }
  }

  lemma {:induction false} CyclesHeld(m: Milestones, s: Stage, held: Stage, a: int, b: int)
    requires a <= b && forall t :: a <= t < b ==> Holder(m, t) == held
    ensures Cycles(m, s, a, b) == if s == held then b - a else 0
    decreases b - a
  {
    if a < b { CyclesHeld(m, s, held, a, b - 1); }
  }

  /** The memory excursion of a miss. */
  lemma {:induction false} ExcursionCycles(m: Milestones, s: Stage)
    requires Complete(m) && InOrder(m) && Miss(m)
    ensures var c := ColumnsOf(m);
      Cycles(m, s, m.llca, m.memin) == (if s == OnMemBus then c.l2d else 0) + (if s == AtDram then c.drm else 0)
  {
    if m.dre >= 0 && m.drx >= 0 {
      CyclesSplit(m, s, m.llca, m.dre, m.memin);
      CyclesSplit(m, s, m.dre, m.drx, m.memin);
      CyclesHeld(m, s, OnMemBus, m.llca, m.dre);
      CyclesHeld(m, s, AtDram, m.dre, m.drx);
      CyclesHeld(m, s, OnMemBus, m.drx, m.memin);
    } else {
      CyclesSplit(m, s, m.llca, m.memout, m.memin);
      CyclesHeld(m, s, OnMemBus, m.llca, m.memout);
      CyclesHeld(m, s, AtDram, m.memout, m.memin);
    }
  }

  lemma {:induction false} FrontCycles(m: Milestones, s: Stage)
    requires Complete(m) && InOrder(m)
    ensures var c := ColumnsOf(m);
      Cycles(m, s, m.issue, m.llca) == (if s == AtL1 then c.l1s else 0) + (if s == OnReqBus then c.rqb else 0) + (if s == AtL2 then c.l2s else 0)
    requires m.issue >= 0
  {
    CyclesSplit(m, s, m.issue, m.l1a, m.llca);
    CyclesSplit(m, s, m.l1a, m.reqb, m.llca);
    CyclesHeld(m, s, AtL1, m.issue, m.l1a);
    CyclesHeld(m, s, OnReqBus, m.l1a, m.reqb);
    CyclesHeld(m, s, AtL2, m.reqb, m.llca);
  }

  lemma {:induction false} MiddleCycles(m: Milestones, s: Stage)
    requires Complete(m) && InOrder(m)
    ensures var c := ColumnsOf(m);
      Cycles(m, s, m.llca, m.llcs) == (if s == OnMemBus then c.l2d else 0) + (if s == AtDram then c.drm else 0) + (if s == InL2 then c.l2a else 0)
  {
    if Miss(m) {
      CyclesSplit(m, s, m.llca, m.memin, m.llcs);
      ExcursionCycles(m, s);
      CyclesHeld(m, s, InL2, m.memin, m.llcs);
    } else {
      CyclesHeld(m, s, InL2, m.llca, m.llcs);
    }
  }

  lemma {:induction false} BackCycles(m: Milestones, s: Stage)
    requires Complete(m) && InOrder(m)
    ensures var c := ColumnsOf(m);
      Cycles(m, s, m.llcs, m.rx) == (if s == InService then m.llce - m.llcs else 0) + (if s == OnRespBus then c.rsb else 0)
                                    + (if s == BackAtL1 then c.l1acc else 0)
  {
    CyclesSplit(m, s, m.llcs, m.llce, m.rx);
    CyclesSplit(m, s, m.llce, m.respb, m.rx);
    CyclesHeld(m, s, InService, m.llcs, m.llce);
    CyclesHeld(m, s, OnRespBus, m.llce, m.respb);
    CyclesHeld(m, s, BackAtL1, m.respb, m.rx);
  }

  /** What a column says. */
  ghost function Column(m: Milestones, s: Stage): int {
    var c := ColumnsOf(m);
    match s
    case AtL1 => c.l1s
    case OnReqBus => c.rqb
    case AtL2 => c.l2s
    case OnMemBus => c.l2d
    case AtDram => c.drm
    case InL2 => c.l2a
    case InService => m.llce - m.llcs
    case OnRespBus => c.rsb
    case BackAtL1 => c.l1acc
  }

  /** Each column is the number of cycles its own stage held the request: for LLC hits, misses with and
      without DRAM stamps and cache-to-cache supplies. */
  lemma {:induction false} ColumnsCountTheirStage(m: Milestones, s: Stage)
    requires Complete(m) && Monotone(m)
    ensures m.issue <= m.rx && Cycles(m, s, m.issue, m.rx) == Column(m, s)
  {
    CompleteInOrder(m);
    CyclesSplit(m, s, m.issue, m.llca, m.rx);
    CyclesSplit(m, s, m.llca, m.llcs, m.rx);
    FrontCycles(m, s);
    MiddleCycles(m, s);
    BackCycles(m, s);
  }

  /** L1 hits tile: admission and the L1's own service are all there is. */
  lemma L1HitTiles(m: Milestones)
    requires Monotone(m) && m.l1a >= 0 && m.reqb < 0 && m.llca < 0 && m.memout < 0 && m.llcs < 0 && m.llce < 0 && m.respb < 0
    ensures ColumnsOf(m).Sum() == Total(m)
  {
    assert Front(m) == [m.issue, m.l1a] && Back(m) == [m.rx];
    HitInOrder(m, Front(m), Middle(m), Back(m));
  }

  /** Without any responder emit the interval from admission to grant goes to one column. A request
      that missed then counts its memory excursion twice: it tiles only if that took no time. */
  lemma {:induction false} NoResponderTilesIff(m: Milestones)
    requires m.llce < 0 && m.l1a >= 0 && m.reqb >= 0 && m.llca >= 0 && m.respb >= 0 && (Miss(m) ==> m.memin >= 0)
    requires 0 <= m.issue <= m.l1a <= m.reqb <= m.llca <= m.respb <= m.rx
    requires Miss(m) ==> m.llca <= m.memout <= m.memin
    requires Miss(m) && m.dre >= 0 && m.drx >= 0 ==> m.llca <= m.dre <= m.drx <= m.memin
    ensures ColumnsOf(m).Sum() == Total(m) + (if Miss(m) then m.memin - m.llca else 0)
    ensures ColumnsOf(m).Sum() == Total(m) <==> !Miss(m) || m.memin == m.llca
  {
  }

  // ---- from the log -------------------------------------------------------------------------------

  /** How many of the first n events are such. */
  function HowMany(log: seq<LogEvent>, role: Role, phase: Phase, n: nat): nat
    requires n <= |log|
  {
    if n == 0 then 0 else HowMany(log, role, phase, n - 1) + if Is(log[n - 1], role, phase) then 1 else 0
  }

  /** Event i is such, and k such events were logged before it. */
  ghost predicate KthAt(log: seq<LogEvent>, role: Role, phase: Phase, k: int, i: nat) {
    i < |log| && Is(log[i], role, phase) && HowMany(log, role, phase, i) == k
  }

  /** c is the cycle of the such event that k of them precede, -1 if there are not that many. */
  ghost predicate IsKth(log: seq<LogEvent>, role: Role, phase: Phase, k: int, c: int) {
    if 0 <= k < HowMany(log, role, phase, |log|) then exists i: nat :: KthAt(log, role, phase, k, i) && c == log[i].cycle else c == -1
  }

  ghost predicate IsFirst(log: seq<LogEvent>, role: Role, phase: Phase, c: int) { IsKth(log, role, phase, 0, c) }

  ghost predicate IsLast(log: seq<LogEvent>, role: Role, phase: Phase, c: int) {
    IsKth(log, role, phase, HowMany(log, role, phase, |log|) - 1, c)
  }

  lemma {:induction false} HowManyBefore(log: seq<LogEvent>, role: Role, phase: Phase, n: nat, m: nat)
    requires n <= m <= |log|
    ensures HowMany(log[..m], role, phase, n) == HowMany(log, role, phase, n)
  {
    if n > 0 { HowManyBefore(log, role, phase, n - 1, m); }
  }

  lemma {:induction false} HowManyStamps(log: seq<LogEvent>, role: Role, phase: Phase)
    ensures |Stamps(log, role, phase)| == HowMany(log, role, phase, |log|)
  {
    if log != [] {
      HowManyStamps(log[..|log| - 1], role, phase);
      HowManyBefore(log, role, phase, |log| - 1, |log| - 1);
    }
  }

  lemma {:induction false} StampIs(log: seq<LogEvent>, role: Role, phase: Phase, k: nat) returns (i: nat)
    requires k < |Stamps(log, role, phase)|
    ensures KthAt(log, role, phase, k, i) && Stamps(log, role, phase)[k] == log[i].cycle
  {
    var n := |log| - 1;
    HowManyStamps(log[..n], role, phase);
    HowManyBefore(log, role, phase, n, n);
    if k == |Stamps(log[..n], role, phase)| {
      i := n;
    } else {
      i := StampIs(log[..n], role, phase, k);
      HowManyBefore(log, role, phase, i, n);
    }
  }

  lemma {:induction false} NthIs(log: seq<LogEvent>, role: Role, phase: Phase, k: nat)
    ensures IsKth(log, role, phase, k, Nth(Stamps(log, role, phase), k))
    ensures IsLast(log, role, phase, Last(Stamps(log, role, phase)))
  {
    var stamps := Stamps(log, role, phase);
    HowManyStamps(log, role, phase);
    if k < |stamps| { var i := StampIs(log, role, phase, k); }
    if stamps != [] { var i := StampIs(log, role, phase, |stamps| - 1); }
  }

  /** The last of the stamps below the bound. */
  ghost predicate IsLastBelow(stamps: seq<nat>, bound: int, i: nat) {
    i < |stamps| && stamps[i] < bound && forall j :: i < j < |stamps| ==> stamps[j] >= bound
  }

  lemma {:induction false} LastBeforeIs(stamps: seq<nat>, bound: int, otherwise: int)
    ensures var r := LastBefore(stamps, bound, otherwise);
      if exists i :: 0 <= i < |stamps| && stamps[i] < bound then exists i: nat :: IsLastBelow(stamps, bound, i) && r == stamps[i]
      else r == otherwise
  {
    var n := |stamps| - 1;
    if stamps != [] {
      if stamps[n] < bound {
        assert IsLastBelow(stamps, bound, n);
      } else {
        LastBeforeIs(stamps[..n], bound, otherwise);
        if i :| 0 <= i < |stamps| && stamps[i] < bound {
          assert stamps[..n][i] < bound;
          var k: nat :| IsLastBelow(stamps[..n], bound, k) && LastBefore(stamps[..n], bound, otherwise) == stamps[k];
          assert IsLastBelow(stamps, bound, k);
        }
      }
    }
  }

  lemma {:induction false} NobodyStamped(log: seq<LogEvent>, role: Role, phase: Phase)
    ensures Stamps(log, role, phase) == [] <==> forall i :: 0 <= i < |log| ==> !Is(log[i], role, phase)
  {
    if log != [] { NobodyStamped(log[..|log| - 1], role, phase); }
  }

  /** The supplier's milestones: the last SERVICE and EXIT an L1 stamped before the grant, and its service
      stands for the admission. */
  ghost predicate SuppliedBy(log: seq<LogEvent>, m: Milestones) {
    var (services, exits) := (Stamps(log, L1, Service), Stamps(log, L1, Exit));
    && (if exists i :: 0 <= i < |services| && services[i] < m.respb
        then (exists i: nat :: IsLastBelow(services, m.respb, i) && m.llcs == services[i]) && m.llca == m.llcs
        else m.llcs == First(Stamps(log, Llc, Service)))
    && (if exists i :: 0 <= i < |exits| && exits[i] < m.respb
        then exists i: nat :: IsLastBelow(exits, m.respb, i) && m.llce == exits[i]
        else m.llce == -1)
  }

  /** The milestones of the responder: the LLC's, or, if it never emitted and the response bus was granted, a
      supplying L1's. */
  lemma {:induction false} ResponderMilestonesAre(log: seq<LogEvent>)
    ensures var m := MilestonesOf(log);
      && (!CacheToCache(log) ==>
            IsFirst(log, Llc, Enter, m.llca) && IsFirst(log, Llc, Service, m.llcs) && IsLast(log, Llc, Exit, m.llce))
      && (CacheToCache(log) ==> SuppliedBy(log, m))
      && (CacheToCache(log) <==> m.respb >= 0 && forall i :: 0 <= i < |log| ==> !Is(log[i], Llc, Exit))
  {
    NobodyStamped(log, Llc, Exit);
    if CacheToCache(log) {
      SupplierIs(log);
    } else {
      NthIs(log, Llc, Enter, 0);
      NthIs(log, Llc, Service, 0);
      NthIs(log, Llc, Exit, 0);
    }
  }

  lemma {:induction false} SupplierIs(log: seq<LogEvent>)
    requires CacheToCache(log)
    ensures SuppliedBy(log, MilestonesOf(log))
  {
    LastBeforeIs(Stamps(log, L1, Service), Last(Stamps(log, RespBus, Exit)), First(Stamps(log, Llc, Service)));
    LastBeforeIs(Stamps(log, L1, Exit), Last(Stamps(log, RespBus, Exit)), -1);
  }

  /** The other milestones of a log, event by event. */
  lemma {:induction false} MilestonesAre(log: seq<LogEvent>)
    ensures var m := MilestonesOf(log);
      && IsFirst(log, Cpu, Enter, m.issue) && IsFirst(log, L1, Enter, m.l1a) && IsFirst(log, ReqBus, Exit, m.reqb)
      && IsFirst(log, MemBus, Exit, m.memout) && IsKth(log, MemBus, Exit, 1, m.memin)
      && IsFirst(log, Dram, Enter, m.dre) && IsLast(log, Dram, Exit, m.drx)
      && IsLast(log, RespBus, Exit, m.respb) && IsLast(log, Cpu, Exit, m.rx)
  {
    NthIs(log, Cpu, Enter, 0);
    NthIs(log, L1, Enter, 0);
    NthIs(log, ReqBus, Exit, 0);
    NthIs(log, MemBus, Exit, 0);
    NthIs(log, MemBus, Exit, 1);
    NthIs(log, Dram, Enter, 0);
    NthIs(log, Dram, Exit, 0);
    NthIs(log, RespBus, Exit, 0);
    NthIs(log, Cpu, Exit, 0);
  }

  /** The stamps before a bound, at least one, carry one cycle. */
  ghost predicate AllAt(stamps: seq<nat>, bound: int, cycle: nat) {
    && (exists i :: 0 <= i < |stamps| && stamps[i] < bound)
    && (forall i :: 0 <= i < |stamps| && stamps[i] < bound ==> stamps[i] == cycle)
  }

  /** The responder logs SERVICE and EXIT together (hitAction, removePendingAndRespond,
      performWriteBack). When an owner's L1 supplies, that concerns its stamps before the grant on the
      response bus: the requester's own L1 stamps both again after it. */
  ghost predicate RespondsAt(log: seq<LogEvent>, cycle: nat) {
    if CacheToCache(log) then
      var respb := Last(Stamps(log, RespBus, Exit));
      AllAt(Stamps(log, L1, Service), respb, cycle) && AllAt(Stamps(log, L1, Exit), respb, cycle)
    else
      && Stamps(log, Llc, Service) != [] && Stamps(log, Llc, Service)[0] == cycle
      && Stamps(log, Llc, Exit) != [] && Last(Stamps(log, Llc, Exit)) == cycle
  }

  /** The milestones of the responder coincide, for the LLC and for a supplying L1 alike. */
  lemma {:induction false} ResponderStampsCoincide(log: seq<LogEvent>, cycle: nat)
    requires RespondsAt(log, cycle)
    ensures MilestonesOf(log).llcs == MilestonesOf(log).llce == cycle
    ensures CacheToCache(log) ==> MilestonesOf(log).llca == cycle
  {
    if CacheToCache(log) {
      var respb := Last(Stamps(log, RespBus, Exit));
      LastBeforeIs(Stamps(log, L1, Service), respb, First(Stamps(log, Llc, Service)));
      LastBeforeIs(Stamps(log, L1, Exit), respb, -1);
    }
  }

  /** From log to columns: if the responder answered in one cycle, the milestones on the way to it and
      back are there, and none goes back, the eight columns of the log add up to its total. */
  lemma {:induction false} LogTiles(log: seq<LogEvent>, cycle: nat)
    requires RespondsAt(log, cycle) && Complete(MilestonesOf(log)) && Monotone(MilestonesOf(log))
    ensures ColumnsOf(MilestonesOf(log)).Sum() == Total(MilestonesOf(log))
  {
    ResponderStampsCoincide(log, cycle);
    ColumnsTileIff(MilestonesOf(log));
  }

  lemma {:induction false} NoStamp(log: seq<LogEvent>, role: Role, phase: Phase)
    requires forall j :: 0 <= j < |log| ==> !Is(log[j], role, phase)
    ensures Stamps(log, role, phase) == []
  {
    if log != [] { NoStamp(log[..|log| - 1], role, phase); }
  }

  lemma {:induction false} OneStamp(log: seq<LogEvent>, role: Role, phase: Phase, i: nat)
    requires i < |log| && Is(log[i], role, phase) && forall j :: 0 <= j < |log| && j != i ==> !Is(log[j], role, phase)
    ensures Stamps(log, role, phase) == [log[i].cycle]
  {
    var n := |log| - 1;
    if i == n { NoStamp(log[..n], role, phase); } else { OneStamp(log[..n], role, phase, i); }
  }

  lemma {:induction false} TwoStamps(log: seq<LogEvent>, role: Role, phase: Phase, i: nat, k: nat)
    requires i < k < |log| && Is(log[i], role, phase) && Is(log[k], role, phase)
    requires forall j :: 0 <= j < |log| && j != i && j != k ==> !Is(log[j], role, phase)
    ensures Stamps(log, role, phase) == [log[i].cycle, log[k].cycle]
  {
    var n := |log| - 1;
    if k == n { OneStamp(log[..n], role, phase, i); } else { TwoStamps(log[..n], role, phase, i, k); }
  }

  /** A cache-to-cache supply as it is logged, the requester's own L1 stamps after the grant
      included. */
  function SupplyLog(): seq<LogEvent> {
    [LogEvent(Cpu, Enter, 0), LogEvent(L1, Enter, 1), LogEvent(ReqBus, Exit, 3), LogEvent(L1, Service, 5), LogEvent(L1, Exit, 5),
     LogEvent(RespBus, Exit, 8), LogEvent(L1, Service, 10), LogEvent(L1, Exit, 10), LogEvent(Cpu, Exit, 11)]
  }

  lemma {:induction false} SupplyStamps()
    ensures var log := SupplyLog();
      && Stamps(log, Cpu, Enter) == [0] && Stamps(log, L1, Enter) == [1] && Stamps(log, ReqBus, Exit) == [3]
      && Stamps(log, L1, Service) == [5, 10] && Stamps(log, L1, Exit) == [5, 10] && Stamps(log, RespBus, Exit) == [8]
      && Stamps(log, Cpu, Exit) == [11] && Stamps(log, Llc, Exit) == [] && Stamps(log, MemBus, Exit) == []
      && Stamps(log, Dram, Enter) == [] && Stamps(log, Dram, Exit) == []
  {
    var log := SupplyLog();
    OneStamp(log, Cpu, Enter, 0);
    OneStamp(log, L1, Enter, 1);
    OneStamp(log, ReqBus, Exit, 2);
    TwoStamps(log, L1, Service, 3, 6);
    TwoStamps(log, L1, Exit, 4, 7);
    OneStamp(log, RespBus, Exit, 5);
    OneStamp(log, Cpu, Exit, 8);
    NoStamp(log, Llc, Exit);
    NoStamp(log, MemBus, Exit);
    NoStamp(log, Dram, Enter);
    NoStamp(log, Dram, Exit);
  }

  lemma {:induction false} SupplyResponds()
    ensures CacheToCache(SupplyLog()) && RespondsAt(SupplyLog(), 5)
  {
    SupplyStamps();
    var log := SupplyLog();
    assert Stamps(log, L1, Service)[0] == 5 && Stamps(log, L1, Exit)[0] == 5;
  }

  lemma {:induction false} SupplyMilestones()
    ensures MilestonesOf(SupplyLog()) == Milestones(0, 1, 3, 5, -1, -1, -1, -1, 5, 5, 8, 11)
  {
    SupplyStamps();
    SupplyResponds();
    ResponderStampsCoincide(SupplyLog(), 5);
  }

  lemma {:induction false} SupplyInOrder(m: Milestones)
    requires m == Milestones(0, 1, 3, 5, -1, -1, -1, -1, 5, 5, 8, 11)
    ensures Complete(m) && Monotone(m)
  {
    assert Present(m) == [0, 1, 3, 5, 5, 5, 8, 11];
  }

  /** The theorem applies to it. */
  lemma {:induction false} SupplyIsCovered()
    ensures CacheToCache(SupplyLog()) && RespondsAt(SupplyLog(), 5)
    ensures Complete(MilestonesOf(SupplyLog())) && Monotone(MilestonesOf(SupplyLog()))
  {
    SupplyResponds();
    SupplyMilestones();
    SupplyInOrder(MilestonesOf(SupplyLog()));
  }

  /** A request that went to memory and whose response nobody stamped. */
  function UnstampedMissLog(): seq<LogEvent> {
    [LogEvent(Cpu, Enter, 0), LogEvent(L1, Enter, 1), LogEvent(ReqBus, Exit, 2), LogEvent(Llc, Enter, 3),
     LogEvent(MemBus, Exit, 4), LogEvent(MemBus, Exit, 8), LogEvent(RespBus, Exit, 9), LogEvent(Cpu, Exit, 10)]
  }

  lemma {:induction false} UnstampedMissStamps()
    ensures var log := UnstampedMissLog();
      && Stamps(log, Cpu, Enter) == [0] && Stamps(log, L1, Enter) == [1] && Stamps(log, ReqBus, Exit) == [2]
      && Stamps(log, Llc, Enter) == [3] && Stamps(log, MemBus, Exit) == [4, 8] && Stamps(log, RespBus, Exit) == [9]
      && Stamps(log, Cpu, Exit) == [10] && Stamps(log, Llc, Service) == [] && Stamps(log, Llc, Exit) == []
      && Stamps(log, L1, Service) == [] && Stamps(log, L1, Exit) == [] && Stamps(log, Dram, Enter) == []
      && Stamps(log, Dram, Exit) == []
  {
    var log := UnstampedMissLog();
    OneStamp(log, Cpu, Enter, 0);
    OneStamp(log, L1, Enter, 1);
    OneStamp(log, ReqBus, Exit, 2);
    OneStamp(log, Llc, Enter, 3);
    TwoStamps(log, MemBus, Exit, 4, 5);
    OneStamp(log, RespBus, Exit, 6);
    OneStamp(log, Cpu, Exit, 7);
    NoStamp(log, Llc, Service);
    NoStamp(log, Llc, Exit);
    NoStamp(log, L1, Service);
    NoStamp(log, L1, Exit);
    NoStamp(log, Dram, Enter);
    NoStamp(log, Dram, Exit);
  }

  lemma {:induction false} UnstampedMissMilestones()
    ensures MilestonesOf(UnstampedMissLog()) == Milestones(0, 1, 2, 3, 4, -1, -1, 8, -1, -1, 9, 10)
  {
    UnstampedMissStamps();
  }

  /** In order, yet the columns exceed the total by the memory excursion. */
  ghost predicate PassesButDoesNotTile(m: Milestones) {
    Miss(m) && m.llce < 0 && Monotone(m) && Telescoped(Present(m)) == Total(m) && ColumnsOf(m).Sum() == Total(m) + 5
  }

  lemma {:induction false} UnstampedMissDoesNotTile(m: Milestones)
    requires m == Milestones(0, 1, 2, 3, 4, -1, -1, 8, -1, -1, 9, 10)
    ensures PassesButDoesNotTile(m)
  {
    assert Present(m) == [0, 1, 2, 3, 4, 8, 9, 10];
    Telescopes(Present(m));
    NoResponderTilesIff(m);
  }

  /** What the check in the code does not see: this log passes it, while its columns count the memory
      excursion twice. */
  lemma {:induction false} CheckPassesColumnsDoNot()
    ensures PassesButDoesNotTile(MilestonesOf(UnstampedMissLog()))
  {
    UnstampedMissMilestones();
    UnstampedMissDoesNotTile(MilestonesOf(UnstampedMissLog()));
  }
}

module StageColumns {
  import opened StageModel

  /** find. */
  method Find(log: seq<LogEvent>, role: Role, phase: Phase, last: bool) returns (found: int)
    ensures found == if last then Last(Stamps(log, role, phase)) else First(Stamps(log, role, phase))
  {
    found := -1;
    for i := 0 to |log|
      invariant found == Last(Stamps(log[..i], role, phase))
      invariant !last ==> found == -1
    {
      assert log[..i + 1][..i] == log[..i];
      if Is(log[i], role, phase) {
        found := log[i].cycle;
        if !last {
          StampsBegin(log, i + 1, role, phase);
          return;
        }
      }
    }
    assert log[..|log|] == log;
  }

  /** What was stamped so far stays first. */
  lemma {:induction false} StampsBegin(log: seq<LogEvent>, n: nat, role: Role, phase: Phase)
    requires n <= |log|
    ensures Stamps(log[..n], role, phase) <= Stamps(log, role, phase)
    decreases |log|
  {
    if n < |log| {
      StampsBegin(log[..|log| - 1], n, role, phase);
      assert log[..|log| - 1][..n] == log[..n];
    } else {
      assert log[..n] == log;
    }
  }

  /** nth. */
  method FindNth(log: seq<LogEvent>, role: Role, phase: Phase, n: nat) returns (found: int)
    ensures found == Nth(Stamps(log, role, phase), n)
  {
    var c := 0;
    for i := 0 to |log|
      invariant c == |Stamps(log[..i], role, phase)| <= n
    {
      assert log[..i + 1][..i] == log[..i];
      if Is(log[i], role, phase) {
        if c == n {
          StampsBegin(log, i + 1, role, phase);
          return log[i].cycle;
        }
        c := c + 1;
      }
    }
    assert log[..|log|] == log;
    found := -1;
  }

  /** The last L1 stamps before the grant. */
  method SupplierStamps(log: seq<LogEvent>, respb: int, service: int, exit: int) returns (llcs: int, llce: int)
    ensures llcs == LastBefore(Stamps(log, L1, Service), respb, service)
    ensures llce == LastBefore(Stamps(log, L1, Exit), respb, exit)
  {
    llcs, llce := service, exit;
    for i := 0 to |log|
      invariant llcs == LastBefore(Stamps(log[..i], L1, Service), respb, service)
      invariant llce == LastBefore(Stamps(log[..i], L1, Exit), respb, exit)
    {
      StampsSnoc(log, i, L1, Service);
      StampsSnoc(log, i, L1, Exit);
      var e := log[i];
      LastBeforeSnoc(Stamps(log[..i], L1, Service), e.cycle, respb, service);
      LastBeforeSnoc(Stamps(log[..i], L1, Exit), e.cycle, respb, exit);
      if e.role.L1? && e.cycle < respb {
        if e.phase.Service? { llcs := e.cycle; }
        if e.phase.Exit? { llce := e.cycle; }
      }
    }
    assert log[..|log|] == log;
  }

  lemma StampsSnoc(log: seq<LogEvent>, i: nat, role: Role, phase: Phase)
    requires i < |log|
    ensures Stamps(log[..i + 1], role, phase)
      == if Is(log[i], role, phase) then Stamps(log[..i], role, phase) + [log[i].cycle] else Stamps(log[..i], role, phase)
  {
    assert log[..i + 1][..i] == log[..i];
  }

  lemma LastBeforeSnoc(stamps: seq<nat>, cycle: nat, bound: int, otherwise: int)
    ensures LastBefore(stamps + [cycle], bound, otherwise) ==
      if cycle < bound then cycle else LastBefore(stamps, bound, otherwise)
  {
    assert (stamps + [cycle])[..|stamps|] == stamps;
  }

  /** The milestones of finalizeEvents. */
  method FindMilestones(log: seq<LogEvent>) returns (m: Milestones)
    ensures m == MilestonesOf(log)
  {
    var issue := Find(log, Cpu, Enter, false);
    var rx := Find(log, Cpu, Exit, true);
    var l1a := Find(log, L1, Enter, false);
    var reqb := Find(log, ReqBus, Exit, false);
    var llca := Find(log, Llc, Enter, false);
    var llcs := Find(log, Llc, Service, false);
    var llce := Find(log, Llc, Exit, true);
    var respb := Find(log, RespBus, Exit, true);
    if llce < 0 && respb >= 0 {
      llcs, llce := SupplierStamps(log, respb, llcs, llce);
      if llcs >= 0 { llca := llcs; }
    }
    var memout := FindNth(log, MemBus, Exit, 0);
    var memin := FindNth(log, MemBus, Exit, 1);
    var dre := Find(log, Dram, Enter, false);
    var drx := Find(log, Dram, Exit, true);
    m := Milestones(issue, l1a, reqb, llca, memout, dre, drx, memin, llcs, llce, respb, rx);
  }

  /** The self-check: since the differences telescope, it reduces to monotonicity. */
  method CheckTiling(mil: seq<int>, total: int) returns (tiled: bool)
    requires mil != [] && total == mil[|mil| - 1] - mil[0]
    ensures tiled <==> NonDecreasing(mil)
  {
    var sum, monotone := 0, true;
    for i := 1 to |mil|
      invariant sum == Telescoped(mil[..i])
      invariant monotone <==> NonDecreasing(mil[..i])
    {
      assert mil[..i + 1][..i] == mil[..i];
      var d := mil[i] - mil[i - 1];
      NonDecreasingSnoc(mil[..i], mil[i]);
      assert mil[..i] + [mil[i]] == mil[..i + 1];
      if d < 0 { monotone := false; }
      sum := sum + d;
    }
    assert mil[..|mil|] == mil;
    Telescopes(mil);
    tiled := monotone && sum == total;
  }

  lemma NonDecreasingSnoc(mil: seq<int>, x: int)
    requires mil != []
    ensures NonDecreasing(mil + [x]) <==> NonDecreasing(mil) && mil[|mil| - 1] <= x
  {
    var more := mil + [x];
    if NonDecreasing(more) {
      forall i | 1 <= i < |mil| ensures mil[i - 1] <= mil[i] { assert more[i - 1] <= more[i]; }
      assert more[|mil| - 1] <= more[|mil|];
    }
  }
}

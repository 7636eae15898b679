/** The event clock (ClockManager): objects fire at fixed periods, in order of time and, at one time,
    of registration; and the loop of the gem5 bridge that paces itself on it. */
module EventClock {
  import opened Wrappers

  /** A scheduled object: its EventKey and the period it is rescheduled with. */
  datatype Slot = Slot(time: nat, id: nat, period: nat)

  datatype Firing = Firing(time: nat, id: nat)

  /** `fired` is history. */
  datatype Clock = Clock(now: nat, events: seq<Slot>, fired: seq<Firing>)

  /** EventKey::operator<. */
  predicate Earlier(t: nat, i: nat, u: nat, j: nat) { t < u || (t == u && i < j) }

  /** The map's order: keys ascend. */
  ghost predicate Sorted(events: seq<Slot>) {
    forall i, j :: 0 <= i < j < |events| ==> Earlier(events[i].time, events[i].id, events[j].time, events[j].id)
  }

  function Insert(events: seq<Slot>, s: Slot): seq<Slot> {
    if events == [] || Earlier(s.time, s.id, events[0].time, events[0].id) then [s] + events
    else [events[0]] + Insert(events[1..], s)
  }

  /** How many slots are due now. */
  function Due(events: seq<Slot>, now: nat): nat {
    if events == [] then 0 else Due(events[1..], now) + if events[0].time == now then 1 else 0
  }

  ghost predicate Running(events: seq<Slot>) { forall i :: 0 <= i < |events| ==> events[i].period > 0 }

  lemma {:induction false} InsertAdds(events: seq<Slot>, s: Slot)
    ensures |Insert(events, s)| == |events| + 1
    ensures multiset(Insert(events, s)) == multiset(events) + multiset{s}
  {
    if events != [] && !Earlier(s.time, s.id, events[0].time, events[0].id) {
      InsertAdds(events[1..], s);
      assert events == [events[0]] + events[1..];
    }
  }

  lemma {:induction false} InsertPlaces(events: seq<Slot>, s: Slot, now: nat)
    ensures |Insert(events, s)| == |events| + 1
    ensures multiset(Insert(events, s)) == multiset(events) + multiset{s}
    ensures Due(Insert(events, s), now) == Due(events, now) + if s.time == now then 1 else 0
    ensures forall e :: e in Insert(events, s) <==> e in events || e == s
  {
    InsertAdds(events, s);
    InsertIsDue(events, s, now);
    forall e ensures e in Insert(events, s) <==> e in events || e == s {
      assert e in multiset(Insert(events, s)) <==> e in multiset(events) + multiset{s};
    }
  }

  lemma {:induction false} InsertIsDue(events: seq<Slot>, s: Slot, now: nat)
    ensures Due(Insert(events, s), now) == Due(events, now) + if s.time == now then 1 else 0
  {
    var r := Insert(events, s);
    if events == [] || Earlier(s.time, s.id, events[0].time, events[0].id) {
      assert r[1..] == events;
    } else {
      InsertIsDue(events[1..], s, now);
      assert r[1..] == Insert(events[1..], s);
    }
  }

  /** Fire the head at the current time and reschedule it one period later. */
  function Fire(c: Clock): Clock
    requires c.events != []
  {
    var head := c.events[0];
    c.(events := Insert(c.events[1..], head.(time := c.now + head.period)), fired := c.fired + [Firing(c.now, head.id)])
  }

  lemma FireUsesUp(c: Clock)
    requires c.events != [] && c.events[0].time == c.now && c.events[0].period > 0 && Running(c.events)
    ensures Due(Fire(c).events, c.now) == Due(c.events, c.now) - 1
    ensures Running(Fire(c).events) && Fire(c).events != []
  {
    var head := c.events[0];
    InsertPlaces(c.events[1..], head.(time := c.now + head.period), c.now);
    forall i | 0 <= i < |Fire(c).events| ensures Fire(c).events[i].period > 0 {
      assert Fire(c).events[i] in Fire(c).events;
    }
  }

  /** clkStep; None is the "CLK event is missed" exit. */
  function ClkStep(c: Clock): Option<Clock>
    requires c.events != [] && Running(c.events)
    decreases Due(c.events, c.now)
  {
    var head := c.events[0];
    if c.now < head.time then Some(c.(now := head.time))
    else if c.now > head.time then None
    else
      FireUsesUp(c);
      ClkStep(Fire(c))
  }

  // ---- the invariant ------------------------------------------------------------------------------

  ghost predicate DistinctIds(events: seq<Slot>) {
    forall i, j :: 0 <= i < j < |events| ==> events[i].id != events[j].id
  }

  /** What has fired is in order and before everything scheduled. */
  ghost predicate Fired(c: Clock) {
    && (forall i, j :: 0 <= i < j < |c.fired| ==> Earlier(c.fired[i].time, c.fired[i].id, c.fired[j].time, c.fired[j].id))
    && (forall i, j :: 0 <= i < |c.fired| && 0 <= j < |c.events| ==>
          Earlier(c.fired[i].time, c.fired[i].id, c.events[j].time, c.events[j].id))
    && (forall i :: 0 <= i < |c.fired| ==> c.fired[i].time <= c.now)
  }

  ghost predicate OnTime(c: Clock) { forall i :: 0 <= i < |c.events| ==> c.now <= c.events[i].time }

  // Sound is a quantifier over its parts: the verifier unfolds a part where a proof names it (Unfold
  // names all), and not at every mention of the whole.

  datatype Aspect = Keys | Ids | NothingPast | History

  ghost predicate Holds(c: Clock, a: Aspect) {
    match a
    case Keys => Sorted(c.events)
    case Ids => DistinctIds(c.events)
    case NothingPast => OnTime(c)
    case History => Fired(c)
  }

  ghost predicate Sound(c: Clock) {
    c.events != [] && Running(c.events) && forall a {:trigger Holds(c, a)} :: Holds(c, a)
  }

  lemma Unfold(c: Clock)
    requires Sound(c)
    ensures Holds(c, Keys) && Holds(c, Ids) && Holds(c, NothingPast) && Holds(c, History)
  {
  }

  lemma {:induction false} FirstThenSorted(first: Slot, rest: seq<Slot>)
    requires Sorted(rest) && DistinctIds(rest)
    requires forall e :: e in rest ==> Earlier(first.time, first.id, e.time, e.id) && e.id != first.id
    ensures Sorted([first] + rest) && DistinctIds([first] + rest)
  {
    forall k | 0 <= k < |rest| ensures Earlier(first.time, first.id, rest[k].time, rest[k].id) && rest[k].id != first.id {
      assert rest[k] in rest;
    }
  }

  lemma {:induction false} FirstBefore(events: seq<Slot>, s: Slot, e: Slot)
    requires events != [] && Sorted(events) && DistinctIds(events) && !Earlier(s.time, s.id, events[0].time, events[0].id)
    requires s.id != events[0].id && (e in events[1..] || e == s)
    ensures Earlier(events[0].time, events[0].id, e.time, e.id) && e.id != events[0].id
  {
    if e in events[1..] { var k :| 1 <= k < |events| && events[k] == e; }
  }

  lemma {:induction false} InsertSorted(events: seq<Slot>, s: Slot)
    requires Sorted(events) && DistinctIds(events) && forall i :: 0 <= i < |events| ==> events[i].id != s.id
    ensures Sorted(Insert(events, s)) && DistinctIds(Insert(events, s))
  {
    if events != [] && !Earlier(s.time, s.id, events[0].time, events[0].id) {
      var rest := Insert(events[1..], s);
      InsertSorted(events[1..], s);
      InsertPlaces(events[1..], s, 0);
      forall e | e in rest ensures Earlier(events[0].time, events[0].id, e.time, e.id) && e.id != events[0].id {
        FirstBefore(events, s, e);
      }
      FirstThenSorted(events[0], rest);
    }
  }

  lemma {:induction false} FireSchedules(c: Clock)
    requires c.events != []
    ensures forall e :: e in Fire(c).events <==> e in c.events[1..] || e == c.events[0].(time := c.now + c.events[0].period)
  {
    InsertPlaces(c.events[1..], c.events[0].(time := c.now + c.events[0].period), 0);
  }

  /** What is scheduled once the head has fired comes after it. */
  lemma {:induction false} LaterThanHead(c: Clock, j: nat)
    requires Sound(c) && c.events[0].time == c.now && j < |Fire(c).events|
    ensures c.now <= Fire(c).events[j].time
    ensures Earlier(c.now, c.events[0].id, Fire(c).events[j].time, Fire(c).events[j].id)
  {
    FireSchedules(c);
    var e := Fire(c).events[j];
    assert e in Fire(c).events;
    if e in c.events[1..] { LaterThanFirst(c, e); }
  }

  lemma LaterThanFirst(c: Clock, e: Slot)
    requires Sound(c) && e in c.events[1..]
    ensures c.now <= e.time && Earlier(c.events[0].time, c.events[0].id, e.time, e.id)
  {
    Unfold(c);
    var k :| 1 <= k < |c.events| && c.events[k] == e;
  }

  lemma {:induction false} FireKeepsFired(c: Clock)
    requires Sound(c) && c.events[0].time == c.now
    ensures Fired(Fire(c)) && OnTime(Fire(c))
  {
    Unfold(c);
    var head, d := c.events[0], Fire(c);
    forall i, j | 0 <= i < |d.fired| && 0 <= j < |d.events|
      ensures Earlier(d.fired[i].time, d.fired[i].id, d.events[j].time, d.events[j].id)
    {
      LaterThanHead(c, j);
      if i < |c.fired| { assert Earlier(c.fired[i].time, c.fired[i].id, head.time, head.id); }
    }
    forall j | 0 <= j < |d.events| ensures d.now <= d.events[j].time { LaterThanHead(c, j); }
  }

  lemma {:induction false} FireKeeps(c: Clock)
    requires Sound(c) && c.events[0].time == c.now
    ensures Sound(Fire(c))
  {
    Unfold(c);
    FireUsesUp(c);
    FireKeepsFired(c);
    InsertSorted(c.events[1..], c.events[0].(time := c.now + c.events[0].period));
  }

  /** A step ends, misses nothing, and strictly advances time to the next scheduled time. */
  lemma {:induction false} StepAdvances(c: Clock)
    requires Sound(c)
    ensures ClkStep(c).Some? && Sound(ClkStep(c).value)
    ensures ClkStep(c).value.now > c.now && ClkStep(c).value.now == ClkStep(c).value.events[0].time
    decreases Due(c.events, c.now)
  {
    Unfold(c);
    if c.events[0].time == c.now {
      FireUsesUp(c);
      FireKeeps(c);
      StepAdvances(Fire(c));
    }
  }

  // ---- exact firing times -------------------------------------------------------------------------

  function Times(fired: seq<Firing>, id: nat): seq<nat> {
    if fired == [] then []
    else Times(fired[..|fired| - 1], id) + if fired[|fired| - 1].id == id then [fired[|fired| - 1].time] else []
  }

  lemma TimesLast(fired: seq<Firing>, f: Firing, id: nat)
    ensures Times(fired + [f], id) == Times(fired, id) + if f.id == id then [f.time] else []
  {
    assert (fired + [f])[..|fired|] == fired;
  }

  /** The k-th time after t0. */
  function Multiple(t0: nat, p: nat, k: nat): nat { if k == 0 then t0 else Multiple(t0, p, k - 1) + p }

  lemma {:induction false} MultipleIs(t0: nat, p: nat, k: nat)
    ensures Multiple(t0, p, k) == t0 + k * p
  {
    if k > 0 {
      MultipleIs(t0, p, k - 1);
      assert k * p == (k - 1) * p + p;
    }
  }

  lemma {:induction false} MultipleGrows(t0: nat, p: nat, j: nat, k: nat)
    requires j <= k
    ensures Multiple(t0, p, j) <= Multiple(t0, p, k)
    decreases k
  {
    if j < k { MultipleGrows(t0, p, j, k - 1); }
  }

  /** The object registered for t0 with period p has fired at t0, t0 + p, ... and is scheduled for
      the next of these times. */
  ghost predicate Punctual(c: Clock, id: nat, t0: nat, p: nat) {
    && (forall k :: 0 <= k < |Times(c.fired, id)| ==> Times(c.fired, id)[k] == Multiple(t0, p, k))
    && Slot(Multiple(t0, p, |Times(c.fired, id)|), id, p) in c.events
  }

  lemma OneSlotEach(events: seq<Slot>, s: Slot, k: nat)
    requires DistinctIds(events) && s in events && k < |events| && events[k].id == s.id
    ensures events[k] == s
  {
    var i :| 0 <= i < |events| && events[i] == s;
    assert i <= k || k < i;
  }

  /** When the head fires, exactly its owner's times grow, by the current time. */
  lemma {:induction false} FireRecords(c: Clock, id: nat)
    requires c.events != []
    ensures Times(Fire(c).fired, id) == Times(c.fired, id) + if c.events[0].id == id then [c.now] else []
    ensures forall e :: e in Fire(c).events <==> e in c.events[1..] || e == c.events[0].(time := c.now + c.events[0].period)
  {
    FireSchedules(c);
    TimesLast(c.fired, Firing(c.now, c.events[0].id), id);
  }

  lemma {:induction false} FireKeepsPunctual(c: Clock, id: nat, t0: nat, p: nat)
    requires Sound(c) && c.events[0].time == c.now && Punctual(c, id, t0, p)
    ensures Punctual(Fire(c), id, t0, p)
  {
    Unfold(c);
    var head, n := c.events[0], |Times(c.fired, id)|;
    var slot := Slot(Multiple(t0, p, n), id, p);
    FireRecords(c, id);
    if head.id == id {
      OneSlotEach(c.events, slot, 0);
      assert Multiple(t0, p, n + 1) == c.now + p;
    } else {
      assert slot in c.events && slot != head;
      assert slot in c.events[1..];
    }
  }

  lemma {:induction false} StepKeepsPunctual(c: Clock, id: nat, t0: nat, p: nat)
    requires Sound(c) && Punctual(c, id, t0, p)
    ensures ClkStep(c).Some? && Punctual(ClkStep(c).value, id, t0, p)
    decreases Due(c.events, c.now)
  {
    Unfold(c);
    if c.events[0].time == c.now {
      FireUsesUp(c);
      FireKeeps(c);
      FireKeepsPunctual(c, id, t0, p);
      StepKeepsPunctual(Fire(c), id, t0, p);
    }
  }

  /** The clock after n steps. */
  ghost function Steps(c: Clock, n: nat): Clock
    requires Sound(c)
    decreases n
  {
    if n == 0 then c
    else
      StepAdvances(c);
      Steps(ClkStep(c).value, n - 1)
  }

  lemma {:induction false} RunKeeps(c: Clock, n: nat, id: nat, t0: nat, p: nat)
    requires Sound(c) && Punctual(c, id, t0, p)
    ensures Sound(Steps(c, n)) && Punctual(Steps(c, n), id, t0, p)
    decreases n
  {
    if n > 0 {
      StepAdvances(c);
      StepKeepsPunctual(c, id, t0, p);
      RunKeeps(ClkStep(c).value, n - 1, id, t0, p);
    }
  }

  /** Exact firing: after any number of steps the object has fired exactly at the times
      t0, t0 + p, t0 + 2p, ... that have passed, once each, in order; and of all firings, earlier
      times come first and at one time earlier registrations. */
  lemma {:induction false} FiresExactly(c: Clock, n: nat, id: nat, t0: nat, p: nat)
    requires Sound(c) && c.fired == [] && Slot(t0, id, p) in c.events
    ensures var (d, times) := (Steps(c, n), Times(Steps(c, n).fired, id));
      && (forall k :: 0 <= k < |times| ==> times[k] == t0 + k * p && times[k] <= d.now)
      && (forall k :: k >= |times| ==> t0 + k * p >= d.now)
    ensures var fired := Steps(c, n).fired;
      forall i, j :: 0 <= i < j < |fired| ==> Earlier(fired[i].time, fired[i].id, fired[j].time, fired[j].id)
  {
    Unfold(c);
    RunKeeps(c, n, id, t0, p);
    PunctualTimes(Steps(c, n), id, t0, p);
    Unfold(Steps(c, n));
  }

  lemma {:induction false} PunctualTimes(d: Clock, id: nat, t0: nat, p: nat)
    requires Sound(d) && Punctual(d, id, t0, p)
    ensures var times := Times(d.fired, id);
      && (forall k :: 0 <= k < |times| ==> times[k] == t0 + k * p && times[k] <= d.now)
      && (forall k :: k >= |times| ==> t0 + k * p >= d.now)
  {
    Unfold(d);
    var times := Times(d.fired, id);
    TimesPast(d.fired, id, d.now);
    forall k | 0 <= k < |times| ensures times[k] == t0 + k * p && times[k] <= d.now { MultipleIs(t0, p, k); }
    forall k | k >= |times| ensures t0 + k * p >= d.now {
      MultipleIs(t0, p, k);
      MultipleGrows(t0, p, |times|, k);
      var i :| 0 <= i < |d.events| && d.events[i] == Slot(Multiple(t0, p, |times|), id, p);
    }
  }

  lemma {:induction false} TimesPast(fired: seq<Firing>, id: nat, now: nat)
    requires forall i :: 0 <= i < |fired| ==> fired[i].time <= now
    ensures forall k :: 0 <= k < |Times(fired, id)| ==> Times(fired, id)[k] <= now
  {
    if fired != [] { TimesPast(fired[..|fired| - 1], id, now); }
  }

  // ---- granularity --------------------------------------------------------------------------------

  /** std::gcd. */
  function Gcd(a: nat, b: nat): nat
    decreases b
  {
    if b == 0 then a else Gcd(b, a % b)
  }

  ghost predicate Divides(g: nat, x: nat) { exists k: nat :: Times2(k, g) == x }

  function Times2(k: nat, g: nat): nat { k * g }

  lemma {:induction false} DividesSum(g: nat, x: nat, y: nat)
    requires Divides(g, x) && Divides(g, y)
    ensures Divides(g, x + y)
    ensures x >= y ==> Divides(g, x - y)
  {
    var i: nat :| Times2(i, g) == x;
    var j: nat :| Times2(j, g) == y;
    assert Times2(i + j, g) == x + y;
    if x >= y {
      if i >= j { assert Times2(i - j, g) == x - y; } else { assert x - y == 0 == Times2(0, g) by { Smaller(i, j, g); } }
    }
  }

  lemma Smaller(i: nat, j: nat, g: nat)
    requires i <= j
    ensures i * g <= j * g
  {
  }

  lemma DividesProduct(g: nat, x: nat, q: nat)
    requires Divides(g, x)
    ensures Divides(g, q * x)
  {
    var k: nat :| Times2(k, g) == x;
    assert Times2(q * k, g) == q * x;
  }

  lemma {:induction false} GcdDivides(a: nat, b: nat)
    ensures Divides(Gcd(a, b), a) && Divides(Gcd(a, b), b)
    decreases b
  {
    if b == 0 {
      assert Times2(1, a) == a && Times2(0, a) == 0;
    } else {
      GcdDivides(b, a % b);
      DividesProduct(Gcd(a, b), b, a / b);
      DividesSum(Gcd(a, b), (a / b) * b, a % b);
    }
  }

  /** The greatest: every common divisor divides it. */
  lemma {:induction false} GcdIsGreatest(a: nat, b: nat, d: nat)
    requires Divides(d, a) && Divides(d, b)
    ensures Divides(d, Gcd(a, b))
    decreases b
  {
    if b != 0 {
      DividesProduct(d, b, a / b);
      assert a - (a / b) * b == a % b;
      DividesSum(d, a, (a / b) * b);
      GcdIsGreatest(b, a % b, d);
    }
  }

  /** getStepGranularity. */
  function Granularity(events: seq<Slot>): nat {
    if events == [] then 0 else Gcd(Granularity(events[..|events| - 1]), events[|events| - 1].period)
  }

  lemma {:induction false} DividesTrans(x: nat, y: nat, z: nat)
    requires Divides(x, y) && Divides(y, z)
    ensures Divides(x, z)
  {
    var k: nat :| Times2(k, y) == z;
    DividesProduct(x, y, k);
  }

  ghost predicate DividesPeriods(g: nat, events: seq<Slot>) {
    forall i :: 0 <= i < |events| ==> Divides(g, events[i].period)
  }

  /** The granularity divides every period, and whatever divides every period divides it. */
  lemma {:induction false} GranularityIsGcd(events: seq<Slot>)
    ensures DividesPeriods(Granularity(events), events)
    ensures forall d: nat :: DividesPeriods(d, events) ==> Divides(d, Granularity(events))
  {
    if events == [] {
      forall d: nat ensures Divides(d, 0) { assert Times2(0, d) == 0; }
    } else {
      var n := |events| - 1;
      var g, p := Granularity(events[..n]), events[n].period;
      GranularityIsGcd(events[..n]);
      GcdDivides(g, p);
      forall i | 0 <= i < n ensures Divides(Gcd(g, p), events[i].period) {
        assert Divides(g, events[..n][i].period);
        DividesTrans(Gcd(g, p), g, events[i].period);
      }
      forall d: nat | DividesPeriods(d, events) ensures Divides(d, Gcd(g, p)) {
        assert DividesPeriods(d, events[..n]);
        GcdIsGreatest(g, p, d);
      }
    }
  }

  /** getMinPeriod. */
  function MinPeriod(events: seq<Slot>): nat {
    if events == [] then 0
    else
      var m, p := MinPeriod(events[..|events| - 1]), events[|events| - 1].period;
      if p != 0 && (m == 0 || p < m) then p else m
  }

  lemma {:induction false} MinPeriodIsLeast(events: seq<Slot>)
    requires Running(events)
    ensures forall i :: 0 <= i < |events| ==> 0 < MinPeriod(events) <= events[i].period
    ensures events != [] ==> exists i :: 0 <= i < |events| && events[i].period == MinPeriod(events)
  {
    if events != [] { MinPeriodIsLeast(events[..|events| - 1]); }
  }

  lemma ProductPositive(k: nat, g: nat)
    requires k * g > 0
    ensures k > 0 && 0 < g <= k * g
  {
    Smaller(1, k, g);
  }

  lemma DivisorIsSmaller(g: nat, x: nat)
    requires Divides(g, x) && x > 0
    ensures 0 < g <= x
  {
    var k: nat :| Times2(k, g) == x;
    ProductPositive(k, g);
  }

  /** The two are the same exactly when every period is a multiple of the shortest: the case in
      which the configuration draws no warning. */
  lemma {:induction false} GranularityIsMinPeriodIff(events: seq<Slot>)
    requires Running(events) && events != []
    ensures Granularity(events) == MinPeriod(events) <==> DividesPeriods(MinPeriod(events), events)
    ensures 0 < Granularity(events) <= MinPeriod(events)
  {
    var g, m := Granularity(events), MinPeriod(events);
    GranularityIsGcd(events);
    MinPeriodIsLeast(events);
    var i :| 0 <= i < |events| && events[i].period == m;
    assert Divides(g, events[i].period);
    DivisorIsSmaller(g, m);
    if DividesPeriods(m, events) { DivisorIsSmaller(m, g); }
  }

  // ---- pacing -------------------------------------------------------------------------------------

  /** Time, periods and scheduled times are multiples of g. */
  ghost predicate OnGrid(c: Clock, g: nat) {
    && Divides(g, c.now) && DividesPeriods(g, c.events)
    && forall i :: 0 <= i < |c.events| ==> Divides(g, c.events[i].time)
  }

  lemma {:induction false} FireKeepsGrid(c: Clock, g: nat)
    requires Sound(c) && c.events[0].time == c.now && OnGrid(c, g)
    ensures OnGrid(Fire(c), g)
  {
    FireSchedules(c);
    var head, d := c.events[0], Fire(c);
    var later := head.(time := c.now + head.period);
    DividesSum(g, c.now, head.period);
    forall i | 0 <= i < |d.events| ensures Divides(g, d.events[i].time) && Divides(g, d.events[i].period) {
      assert d.events[i] in d.events;
      GridOf(c, g, later, d.events[i]);
    }
  }

  lemma GridOf(c: Clock, g: nat, later: Slot, e: Slot)
    requires c.events != [] && OnGrid(c, g) && Divides(g, later.time) && Divides(g, later.period)
    requires e in c.events[1..] || e == later
    ensures Divides(g, e.time) && Divides(g, e.period)
  {
    if e != later { var k :| 1 <= k < |c.events| && c.events[k] == e; }
  }

  lemma {:induction false} StepKeepsGrid(c: Clock, g: nat)
    requires Sound(c) && OnGrid(c, g)
    ensures ClkStep(c).Some? && OnGrid(ClkStep(c).value, g)
    decreases Due(c.events, c.now)
  {
    Unfold(c);
    if c.events[0].time == c.now {
      FireUsesUp(c);
      FireKeeps(c);
      FireKeepsGrid(c, g);
      StepKeepsGrid(Fire(c), g);
    }
  }

  /** Before the first step: objects registered for time 0 or for their own period are on the grid of
      the granularity. */
  lemma RegisteredOnGrid(c: Clock)
    requires c.now == 0 && forall i :: 0 <= i < |c.events| ==> c.events[i].time == 0 || c.events[i].time == c.events[i].period
    ensures OnGrid(c, Granularity(c.events))
  {
    var g := Granularity(c.events);
    GranularityIsGcd(c.events);
    assert Times2(0, g) == 0;
  }

  /** Every step advances time by at least the granularity. */
  lemma {:induction false} StepCoversGranularity(c: Clock, g: nat)
    requires Sound(c) && OnGrid(c, g) && g > 0
    ensures ClkStep(c).Some? && Sound(ClkStep(c).value) && OnGrid(ClkStep(c).value, g)
    ensures ClkStep(c).value.now >= c.now + g
  {
    Unfold(c);
    StepAdvances(c);
    StepKeepsGrid(c, g);
    DividesSum(g, ClkStep(c).value.now, c.now);
    DivisorIsSmaller(g, ClkStep(c).value.now - c.now);
  }

  // ---- when the granularity is the finest distance of a step ----------------------------------------

  ghost predicate Congruent(x: nat, y: nat, g: nat) { Divides(g, if x >= y then x - y else y - x) }

  lemma CongruentTrans(x: nat, y: nat, z: nat, g: nat)
    requires Congruent(x, y, g) && Congruent(y, z, g)
    ensures Congruent(x, z, g) && Congruent(z, x, g)
  {
    DividesSum(g, if x >= y then x - y else y - x, if y >= z then y - z else z - y);
    DividesSum(g, if y >= z then y - z else z - y, if x >= y then x - y else y - x);
  }

  /** All scheduled times agree with r. */
  ghost predicate AgreeWith(c: Clock, g: nat, r: nat) {
    DividesPeriods(g, c.events) && forall s :: s in c.events ==> Congruent(s.time, r, g)
  }

  lemma {:induction false} FireKeepsAgreement(c: Clock, g: nat, r: nat)
    requires Sound(c) && c.events[0].time == c.now && AgreeWith(c, g, r)
    ensures AgreeWith(Fire(c), g, r)
  {
    var head, d := c.events[0], Fire(c);
    FireRecords(c, 0);
    CongruentTrans(c.now + head.period, c.now, r, g);
    forall i | 0 <= i < |d.events| ensures Divides(g, d.events[i].period) {
      assert d.events[i] in d.events;
      if d.events[i] in c.events[1..] { var k :| 1 <= k < |c.events| && c.events[k] == d.events[i]; }
    }
  }

  lemma {:induction false} StepKeepsAgreement(c: Clock, g: nat, r: nat)
    requires Sound(c) && AgreeWith(c, g, r)
    ensures ClkStep(c).Some? && AgreeWith(ClkStep(c).value, g, r)
    decreases Due(c.events, c.now)
  {
    if c.events[0].time == c.now {
      FireUsesUp(c);
      FireKeeps(c);
      FireKeepsAgreement(c, g, r);
      StepKeepsAgreement(Fire(c), g, r);
    } else {
      StepAdvances(c);
    }
  }

  /** Every step after the first ends at a time that agrees with r. */
  lemma {:induction false} StepsAgree(c: Clock, n: nat, g: nat, r: nat)
    requires Sound(c) && AgreeWith(c, g, r)
    ensures n > 0 ==> Congruent(Steps(c, n).now, r, g)
    decreases n
  {
    if n > 0 {
      StepAdvances(c);
      StepKeepsAgreement(c, g, r);
      var d := ClkStep(c).value;
      StepsAgree(d, n - 1, g, r);
      assert d.events[0] in d.events && Congruent(d.events[0].time, r, g);
      assert n == 1 ==> Steps(d, 0) == d;
      assert Steps(c, n) == Steps(d, n - 1);
    }
  }

  /** A step fires what is due now and leaves what is due later where it is. */
  lemma {:induction false} StepMovesSlots(c: Clock, s: Slot)
    requires Sound(c) && s in c.events
    ensures ClkStep(c).Some?
    ensures (if s.time == c.now then s.(time := c.now + s.period) else s) in ClkStep(c).value.events
    decreases Due(c.events, c.now)
  {
    var head := c.events[0];
    if head.time == c.now {
      FireUsesUp(c);
      FireKeeps(c);
      FireRecords(c, 0);
      if s == head {
        StepMovesSlots(Fire(c), s.(time := c.now + s.period));
      } else {
        assert s in c.events[1..];
        StepMovesSlots(Fire(c), s);
      }
    } else {
      StepAdvances(c);
      assert s.time != c.now by { Unfold(c); }
    }
  }

  /** Every scheduled time is reached. */
  lemma {:induction false} TimesAreReached(c: Clock, s: Slot) returns (n: nat)
    requires Sound(c) && s in c.events && s.time >= c.now
    ensures Steps(c, n).now == s.time
    decreases s.time - c.now
  {
    if s.time == c.now { return 0; }
    StepAdvances(c);
    StepMovesSlots(c, s);
    var d := ClkStep(c).value;
    assert d.now <= s.time by { Unfold(d); }
    n := TimesAreReached(d, s);
    n := n + 1;
  }

  /** Every step after the first covers a multiple of g. */
  ghost predicate Granular(c: Clock, g: nat)
    requires Sound(c)
  {
    forall n: nat {:trigger Steps(c, n)} :: n > 0 ==> Congruent(Steps(c, n + 1).now, Steps(c, n).now, g)
  }

  lemma {:induction false} GranularStepsAgree(c: Clock, n: nat, g: nat)
    requires Sound(c) && Granular(c, g) && n > 0
    ensures Congruent(Steps(c, n).now, Steps(c, 1).now, g)
    decreases n
  {
    if n == 1 {
      assert Times2(0, g) == 0;
    } else {
      GranularStepsAgree(c, n - 1, g);
      assert Steps(c, n - 1) == Steps(c, n - 1);
      CongruentTrans(Steps(c, n).now, Steps(c, n - 1).now, Steps(c, 1).now, g);
    }
  }

  lemma {:induction false} GranularTimesAgree(c: Clock, s: Slot, g: nat)
    requires Sound(c) && Granular(c, g) && DividesPeriods(g, c.events) && s in c.events
    ensures Congruent(s.time, Steps(c, 1).now, g)
  {
    StepAdvances(c);
    StepMovesSlots(c, s);
    var d, moved := ClkStep(c).value, if s.time == c.now then s.(time := c.now + s.period) else s;
    Unfold(d);
    assert moved.time >= d.now;
    var n := TimesAreReached(d, moved);
    assert Steps(c, n + 1) == Steps(d, n);
    GranularStepsAgree(c, n + 1, g);
    var i :| 0 <= i < |c.events| && c.events[i] == s;
    if s.time == c.now { CongruentTrans(s.time, moved.time, Steps(c, 1).now, g); }
  }

  /** The exact condition under which a common divisor of the periods, the granularity for one, is
      the grain of the clock: every step after the first covers a multiple of it if and only if all
      scheduled times agree modulo it. */
  lemma {:induction false} GranularIff(c: Clock, g: nat)
    requires Sound(c) && DividesPeriods(g, c.events)
    ensures Granular(c, g) <==> forall s, u :: s in c.events && u in c.events ==> Congruent(s.time, u.time, g)
  {
    if forall s, u :: s in c.events && u in c.events ==> Congruent(s.time, u.time, g) {
      var r := c.events[0].time;
      assert AgreeWith(c, g, r);
      forall n: nat | n > 0 ensures Congruent(Steps(c, n + 1).now, Steps(c, n).now, g) {
        StepsAgree(c, n, g, r);
        StepsAgree(c, n + 1, g, r);
        CongruentTrans(Steps(c, n + 1).now, r, Steps(c, n).now, g);
      }
    }
    if Granular(c, g) {
      forall s, u | s in c.events && u in c.events ensures Congruent(s.time, u.time, g) {
        GranularTimesAgree(c, s, g);
        GranularTimesAgree(c, u, g);
        CongruentTrans(s.time, Steps(c, 1).now, u.time, g);
      }
    }
  }

  /** The registrations of the simulator, for time 0 or for the object's own period, meet it. */
  lemma {:induction false} RegistrationsAreGranular(c: Clock)
    requires Sound(c) && c.now == 0
    requires forall i :: 0 <= i < |c.events| ==> c.events[i].time == 0 || c.events[i].time == c.events[i].period
    ensures Granular(c, Granularity(c.events))
  {
    var g := Granularity(c.events);
    RegisteredOnGrid(c);
    GranularityIsGcd(c.events);
    forall s, u | s in c.events && u in c.events ensures Congruent(s.time, u.time, g) {
      var i :| 0 <= i < |c.events| && c.events[i] == s;
      var j :| 0 <= j < |c.events| && c.events[j] == u;
      DividesSum(g, s.time, u.time);
      DividesSum(g, u.time, s.time);
    }
    GranularIff(c, g);
  }

  /** The smallest number of granularities that cover this many nanoseconds. */
  function Ceil(d: nat, g: nat): nat
    requires g > 0
  {
    if d == 0 then 0 else 1 + Ceil(if d > g then d - g else 0, g)
  }

  lemma {:induction false} CeilIs(d: nat, g: nat)
    requires g > 0
    ensures d <= Ceil(d, g) * g < d + g
  {
    if d > 0 {
      CeilIs(if d > g then d - g else 0, g);
      assert Ceil(d, g) * g == (Ceil(d, g) - 1) * g + g;
    }
  }

  lemma {:induction false} CeilGrows(d: nat, e: nat, g: nat)
    requires g > 0 && d <= e
    ensures Ceil(d, g) <= Ceil(e, g)
    decreases e
  {
    if d > 0 { CeilGrows(if d > g then d - g else 0, if e > g then e - g else 0, g); }
  }
}

module ClockManagement {
  import opened Wrappers
  import opened EventClock

  class ClockManager {
    var now: nat
    var events: seq<Slot>     // the map, in key order
    var nextId: nat
    ghost var fired: seq<Firing>

    ghost function AsClock(): Clock
      reads this
    {
      Clock(now, events, fired)
    }

    ghost predicate Registered()
      reads this
    {
      && Sorted(events) && DistinctIds(events) && (forall i :: 0 <= i < |events| ==> events[i].id < nextId)
      && now == 0 && fired == []
    }

    constructor ()
      ensures Registered() && events == []
    {
      now, events, nextId := 0, [], 0;
      fired := [];
    }

    /** registerCLKObj: first due at the period known at registration; `period` is the one in force
        once all constructors have run. */
    method RegisterCLKObj(first: nat, period: nat)
      requires Registered()
      modifies this
      ensures Registered() && Slot(first, old(nextId), period) in events && nextId == old(nextId) + 1
      ensures multiset(events) == multiset(old(events)) + multiset{Slot(first, old(nextId), period)}
    {
      var s := Slot(first, nextId, period);
      InsertSorted(events, s);
      InsertPlaces(events, s, 0);
      forall i | 0 <= i < |Insert(events, s)| ensures Insert(events, s)[i].id <= nextId { assert Insert(events, s)[i] in Insert(events, s); }
      events := Insert(events, s);
      nextId := nextId + 1;
    }

    /** deregisterCLKObj: the object's one slot leaves, the others stay. */
    method DeregisterCLKObj(id: nat)
      requires Registered()
      modifies this`events
      ensures Registered() && forall s :: s in events <==> s in old(events) && s.id != id
    {
      for i := 0 to |events|
        invariant events == old(events) && forall k :: 0 <= k < i ==> events[k].id != id
      {
        if events[i].id == id {
          events := events[..i] + events[i + 1..];
          assert forall k :: i < k < |old(events)| ==> old(events)[k].id != id;
          return;
        }
      }
    }

    /** init refuses a period that is still zero; afterwards the clock may run. */
    method Init() returns (ok: bool)
      requires Registered()
      ensures ok <==> Running(events)
      ensures ok && events != [] ==> Sound(AsClock())
    {
      for i := 0 to |events|
        invariant forall k :: 0 <= k < i ==> events[k].period > 0
      {
        if events[i].period == 0 { return false; }
      }
      ok := true;
    }

    /** clkStep. */
    method ClkStep() returns (missed: bool)
      requires events != [] && Running(events)
      modifies this
      ensures !missed ==> EventClock.ClkStep(old(AsClock())) == Some(AsClock())
      ensures missed ==> EventClock.ClkStep(old(AsClock())).None?
    {
      while true
        invariant events != [] && Running(events)
        invariant EventClock.ClkStep(AsClock()) == EventClock.ClkStep(old(AsClock()))
        decreases Due(events, now)
      {
        var head := events[0];
        if now < head.time {
          now := head.time;
          return false;
        } else if now > head.time {
          return true;
        }
        FireUsesUp(AsClock());
        fired := fired + [Firing(now, head.id)];
        events := Insert(events[1..], head.(time := now + head.period));
      }
    }

    method GetMinPeriod() returns (m: nat)
      ensures m == MinPeriod(events)
    {
      m := 0;
      for i := 0 to |events|
        invariant m == MinPeriod(events[..i])
      {
        assert events[..i + 1][..i] == events[..i];
        if events[i].period != 0 && (m == 0 || events[i].period < m) { m := events[i].period; }
      }
      assert events[..|events|] == events;
    }

    method GetStepGranularity() returns (g: nat)
      ensures g == Granularity(events)
    {
      g := 0;
      for i := 0 to |events|
        invariant g == Granularity(events[..i])
      {
        assert events[..i + 1][..i] == events[..i];
        g := Gcd(g, events[i].period);
      }
      assert events[..|events|] == events;
    }

    /** The pacing loop of the bridge's tick: steps until `cycle` ns have passed, panicking beyond
        1024 steps. It takes at most ceil(cycle / g) steps, so it panics only for a granularity
        finer than the guard allows. */
    method Pace(cycle: nat, ghost g: nat) returns (panicked: bool, steps: nat)
      requires Sound(AsClock()) && g > 0 && OnGrid(AsClock(), g)
      modifies this
      ensures Sound(AsClock()) && OnGrid(AsClock(), g)
      ensures steps <= Ceil(cycle, g)
      ensures panicked ==> steps == 1025
      ensures !panicked ==> now >= old(now) + cycle && steps <= 1024
    {
      var target := now + cycle;
      steps := 0;
      while now < target
        invariant Sound(AsClock()) && OnGrid(AsClock(), g)
        invariant steps <= 1024
        invariant steps + Ceil(if now < target then target - now else 0, g) <= Ceil(cycle, g)
        decreases target - now
      {
        StepCoversGranularity(AsClock(), g);
        ghost var left := if target - now > g then target - now - g else 0;
        var missed := ClkStep();
        CeilGrows(if now < target then target - now else 0, left, g);
        steps := steps + 1;
        if steps > 1024 { return true, steps; }
      }
      panicked := false;
    }
  }
}

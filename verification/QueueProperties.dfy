/** What the processing queue promises: skipping rescans is invisible, one line is served in order,
    and when a popped request can go back. */
module RescanSkip {
  import opened Wrappers
  import opened Messages
  import opened QueueModel

  /** What can happen to a queue and its owner. */
  datatype Event =
    | Back(m: Message, status: Status, force: bool)
    | FrontOrdered(m: Message)
    | Front(m: Message)
    | Mark
    | OwnerMoves(o: Owner)
    | Get

  /** The queue, its owner, what the gets returned, and whether the owner moved since a fruitless
      scan with no push and no markDirty after it. */
  datatype Run = Run(q: Queue, o: Owner, gots: seq<Got>, moved: bool)

  function Step(r: Run, e: Event, skip: bool): Run {
    match e
    case Back(m, status, force) =>
      if Refuses(r.q, status, force) then r else r.(q := PushBack(r.q, m, status, force), moved := false)
    case FrontOrdered(m) => r.(q := PushFrontOrdered(r.q, m), moved := false)
    case Front(m) => r.(q := PushFront(r.q, m), moved := false)
    case Mark => r.(q := r.q.(dirty := true), moved := false)
    case OwnerMoves(o) => r.(o := o, moved := r.moved || !r.q.dirty)
    case Get =>
      var (got, q) := if skip then GetFirstReady(r.o, r.q) else Scan(r.o, r.q);
      r.(q := q, gots := r.gots + [got])
  }

  function RunAll(r: Run, events: seq<Event>, skip: bool): Run {
    if events == [] then r else Step(RunAll(r, events[..|events| - 1], skip), events[|events| - 1], skip)
  }

  /** Asking twice about an item that is not ready gives the same answer. getRequestState looks at
      the item and the line only, so it qualifies (see ReadinessOfTheLine). */
  ghost predicate Stable(o: Owner) {
    forall m, s :: var t := o.check(m, s); t.Ready? || t.NeedsAction? || o.check(m, t) == t
  }

  lemma ReadinessOfTheLine(isStall: Message -> bool, hold: Message -> bool)
    ensures Stable(Owner((m, s) => if isStall(m) then NonReady else Ready, hold))
  {
  }

  /** The owner marks the queue dirty after every move that matters: no get finds it moved. */
  ghost predicate Disciplined(r: Run, events: seq<Event>) {
    forall i :: 0 <= i < |events| && events[i].Get? ==> !RunAll(r, events[..i], false).moved
  }

  ghost predicate StableOwners(events: seq<Event>) {
    forall e :: e in events && e.OwnerMoves? ==> Stable(e.o)
  }

  /** A scan of this queue would find nothing and change nothing but the dirty bit. */
  ghost predicate Fruitless(o: Owner, q: Queue) {
    Scan(o, q) == (Nothing, q.(dirty := false))
  }

  /** The dirty bit is off only when a scan under the current owner is fruitless, unless the owner
      moved since. */
  ghost predicate CleanIsFruitless(r: Run) {
    Stable(r.o) && (r.moved ==> !r.q.dirty) && (!r.q.dirty && !r.moved ==> Fruitless(r.o, r.q))
  }

  lemma {:induction false} FruitlessScanSettles(o: Owner, q: Queue)
    requires Stable(o) && Scan(o, q).0.Nothing?
    ensures Fruitless(o, Scan(o, q).1)
  {
    var n := |q.buffer|;
    var q' := Scan(o, q).1;
    assert FirstHit(o, q, 0) == n;
    forall i | 0 <= i < n
      ensures !Hits(o, q', i) && Passed(o, q', i) == q'.buffer[i]
    {
      assert forall k :: 0 <= k <= i ==> q'.buffer[k].item == q.buffer[k].item;
      assert !Hits(o, q, i);
      assert BehindSameLine(q'.buffer, q'.lines, i) <==> BehindSameLine(q.buffer, q.lines, i);
      assert Skipped(o, q', i) <==> Skipped(o, q, i);
      if !Skipped(o, q, i) {
        assert q'.buffer[i] == Element(q.buffer[i].item, Verdict(o, q.buffer[i]));
      }
    }
    assert FirstHit(o, q', 0) == n;
    assert ScannedTo(o, q', n) == q'.buffer;
  }

  lemma {:induction false} StepKeepsClean(r: Run, e: Event)
    requires CleanIsFruitless(r) && (e.OwnerMoves? ==> Stable(e.o)) && (e.Get? ==> !r.moved)
    ensures CleanIsFruitless(Step(r, e, false))
    ensures r.q.stateOnly ==> Step(r, e, true) == Step(r, e, false)
    ensures Step(r, e, false).q.stateOnly == r.q.stateOnly
  {
    if e.Get? && Scan(r.o, r.q).0.Nothing? { FruitlessScanSettles(r.o, r.q); }
  }

  /** The rescan skip is invisible: over every disciplined run a queue that skips returns exactly
      what one that always rescans returns, and holds the same items. */
  lemma {:induction false} SkipIsInvisible(r: Run, events: seq<Event>)
    requires CleanIsFruitless(r) && r.q.stateOnly
    requires Disciplined(r, events) && StableOwners(events)
    ensures RunAll(r, events, true) == RunAll(r, events, false)
    ensures CleanIsFruitless(RunAll(r, events, false)) && RunAll(r, events, false).q.stateOnly
    decreases |events|
  {
    if events != [] {
      var n := |events| - 1;
      var before := events[..n];
      forall i | 0 <= i < n && before[i].Get? ensures !RunAll(r, before[..i], false).moved {
        assert before[..i] == events[..i] && events[i].Get?;
      }
      SkipIsInvisible(r, before);
      assert events[n].OwnerMoves? ==> events[n] in events;
      StepKeepsClean(RunAll(r, before, false), events[n]);
    }
  }

  /** A new queue is dirty, so the theorem applies from the start. */
  lemma NewQueueQualifies(o: Owner, lines: Option<Geometry.Geometry>, maxSize: int)
    requires Stable(o)
    ensures CleanIsFruitless(Run(Queue([], true, lines, maxSize, true), o, [], false))
  {
  }

  /** The discipline is needed: an owner that becomes ready without a word strands the item. */
  lemma {:induction false} UnmarkedMoveStrandsAnItem(m: Message)
    ensures var busy, idle := Owner((i, s) => NonReady, i => false), Owner((i, s) => Ready, i => false);
      var q := PushBack(Queue([], true, None, -1, true), m, NonReady, false);
      var clean := GetFirstReady(busy, q).1;
      && GetFirstReady(busy, q).0.Nothing?
      && GetFirstReady(idle, clean) == (Nothing, clean)
      && Scan(idle, clean).0 == Item(m)
  {
    var busy := Owner((i, s) => NonReady, i => false);
    var q := PushBack(Queue([], true, None, -1, true), m, NonReady, false);
    assert !Hits(busy, q, 0);
    assert FirstHit(busy, q, 0) == 1;
  }
}

/** What one scan of the queue does, in plain terms. */
module FirstReady {
  import opened Wrappers
  import opened Messages
  import opened Geometry
  import opened QueueModel

  /** An older demand request or invalidation of the same line is queued in front of it. */
  ghost predicate Gated(q: Queue, k: nat)
    requires k < |q.buffer|
  {
    && q.lines.Some? && (q.buffer[k].item.IsDemandRequest() || q.buffer[k].item.IsInvalidation())
    && exists j :: 0 <= j < k && InFront(q, q.lines.value, j, k)
  }

  ghost predicate InFront(q: Queue, g: Geometry, j: nat, k: nat)
    requires j < |q.buffer| && k < |q.buffer|
  {
    && (q.buffer[j].item.IsDemandRequest() || q.buffer[j].item.IsInvalidation())
    && g.Block(q.buffer[j].item.addr) == g.Block(q.buffer[k].item.addr)
  }

  /** What the owner says of it; an element that is ready already is not asked about. */
  ghost predicate Answers(o: Owner, e: Element, answer: Status) {
    if e.status == Ready then answer == Ready else answer == o.check(e.item, e.status)
  }

  /** It may be handed out: not held, not gated, and ready or in need of an action. */
  ghost predicate HasTurn(o: Owner, q: Queue, k: nat)
    requires k < |q.buffer|
  {
    !o.hold(q.buffer[k].item) && !Gated(q, k) && (Answers(o, q.buffer[k], Ready) || Answers(o, q.buffer[k], NeedsAction))
  }

  /** A scan leaves an element it passes over with its owner's answer, unless it is held or gated. */
  ghost predicate PassedOver(o: Owner, q: Queue, k: nat, e: Element)
    requires k < |q.buffer|
  {
    e.item == q.buffer[k].item
    && if o.hold(q.buffer[k].item) || Gated(q, k) then e.status == q.buffer[k].status else Answers(o, q.buffer[k], e.status)
  }

  lemma {:induction false} GateIs(q: Queue, k: nat)
    requires k < |q.buffer|
    ensures BehindSameLine(q.buffer, q.lines, k) <==> Gated(q, k)
  {
    if q.lines.Some? {
      var g := q.lines.value;
      forall j | 0 <= j < k ensures g.SameLine(q.buffer[j].item.addr, q.buffer[k].item.addr)
        <==> g.Block(q.buffer[j].item.addr) == g.Block(q.buffer[k].item.addr)
      {
        SameLineIsSameBlock(g, q.buffer[j].item.addr, q.buffer[k].item.addr);
      }
      if BehindSameLine(q.buffer, q.lines, k) {
        var j :| 0 <= j < k && q.buffer[j].item.IsOrdered() && g.SameLine(q.buffer[j].item.addr, q.buffer[k].item.addr);
        assert InFront(q, g, j, k);
      }
      if Gated(q, k) {
        var j :| 0 <= j < k && InFront(q, g, j, k);
        assert q.buffer[j].item.IsOrdered();
      }
    }
  }

  lemma {:induction false} TurnIs(o: Owner, q: Queue, k: nat)
    requires k < |q.buffer|
    ensures Hits(o, q, k) <==> HasTurn(o, q, k)
    ensures PassedOver(o, q, k, Passed(o, q, k))
  {
    GateIs(q, k);
  }

  /** The queue after a scan that handed out the message at k, given what it left of the others. */
  ghost predicate HandedOut(o: Owner, q: Queue, q': Queue, k: nat)
    requires k < |q.buffer|
  {
    if Answers(o, q.buffer[k], Ready) then |q'.buffer| == |q.buffer| - 1 && q'.buffer[k..] == q.buffer[k + 1..]
    else |q'.buffer| == |q.buffer| && q'.buffer[k] == Element(q.buffer[k].item, Waiting) && q'.buffer[k + 1..] == q.buffer[k + 1..]
  }

  /** First ready, first served: a scan hands out the first message that has a turn, takes it out if it
      is ready and leaves it waiting if it needs an action, refreshes what it passed over, and touches
      nothing behind it; it finds nothing exactly when none has a turn, and only then it clears the dirty
      bit. */
  lemma {:induction false} ScanServesTheFirstReady(o: Owner, q: Queue)
    ensures var (got, q') := Scan(o, q);
      && q' == q.(buffer := q'.buffer, dirty := q.dirty && got != Nothing)
      && match got
         case Nothing =>
           && |q'.buffer| == |q.buffer|
           && forall k :: 0 <= k < |q.buffer| ==> !HasTurn(o, q, k) && PassedOver(o, q, k, q'.buffer[k])
         case Item(m) => exists k :: 0 <= k < |q.buffer| && Served(o, q, q', m, k)
  {
    var k := FirstHit(o, q, 0);
    forall j | 0 <= j < |q.buffer| ensures (Hits(o, q, j) <==> HasTurn(o, q, j)) && PassedOver(o, q, j, Passed(o, q, j)) {
      TurnIs(o, q, j);
    }
    if k < |q.buffer| {
      HandsOut(o, q, k);
      assert Served(o, q, Scan(o, q).1, q.buffer[k].item, k);
    }
  }

  lemma {:induction false} HandsOut(o: Owner, q: Queue, k: nat)
    requires k == FirstHit(o, q, 0) < |q.buffer|
    ensures HandedOut(o, q, Scan(o, q).1, k)
    ensures forall j :: 0 <= j < k ==> j < |Scan(o, q).1.buffer| && Scan(o, q).1.buffer[j] == Passed(o, q, j)
  {
    assert Hits(o, q, k);
  }

  ghost predicate Served(o: Owner, q: Queue, q': Queue, m: Message, k: nat)
    requires k < |q.buffer|
  {
    && q.buffer[k].item == m && HasTurn(o, q, k) && HandedOut(o, q, q', k)
    && forall j :: 0 <= j < k ==> !HasTurn(o, q, j) && PassedOver(o, q, j, q'.buffer[j])
  }
}

module LineOrder {
  import opened Wrappers
  import opened Sequences
  import opened Messages
  import opened Geometry
  import opened QueueModel

  /** Every returned demand request or invalidation is the earliest such item of its line. */
  lemma ReturnedIsEarliestOfItsLine(o: Owner, q: Queue, m: Message)
    requires q.lines.Some? && m.IsOrdered() && GetFirstReady(o, q).0 == Item(m)
    ensures exists k :: (0 <= k < |q.buffer| && q.buffer[k].item == m
      && forall j :: 0 <= j < k && q.buffer[j].item.IsOrdered() ==>
        !q.lines.value.SameLine(q.buffer[j].item.addr, m.addr))
  {
    var k := FirstHit(o, q, 0);
    assert Hits(o, q, k) && !BehindSameLine(q.buffer, q.lines, k);
  }

  function Items(list: seq<Element>): seq<Message> { seq(|list|, i requires 0 <= i < |list| => list[i].item) }

  function To(g: Geometry, addr: nat): Message -> bool { (m: Message) => g.Block(m.addr) == g.Block(addr) }

  /** The messages to the line of `addr`, in order. */
  function ToLine(g: Geometry, list: seq<Message>, addr: nat): seq<Message> { Filter(list, To(g, addr)) }

  // ---- the interconnect's messages --------------------------------------------------------------

  /** A queue and, in order, the interconnect messages delivered to it and taken from it. */
  datatype Intake = Intake(q: Queue, delivered: seq<Message>, taken: seq<Message>)

  datatype Event =
    | FromAbove(m: Message)                                    // pushFrontOrdered
    | FromElsewhere(m: Message, status: Status, force: bool)   // pushBack
    | Mark
    | Take(o: Owner)                                           // getFirstReady

  function Step(s: Intake, e: Event): Intake {
    match e
    case FromAbove(m) => s.(q := PushFrontOrdered(s.q, m), delivered := s.delivered + [m])
    case FromElsewhere(m, status, force) => s.(q := PushBack(s.q, m, status, force))
    case Mark => s.(q := s.q.(dirty := true))
    case Take(o) =>
      var (got, q) := GetFirstReady(o, s.q);
      s.(q := q, taken := if got.Item? && got.m.source.Upper? then s.taken + [got.m] else s.taken)
  }

  function RunAll(s: Intake, events: seq<Event>): Intake {
    if events == [] then s else Step(RunAll(s, events[..|events| - 1]), events[|events| - 1])
  }

  /** The interlock holds whole lines. */
  ghost predicate HoldsLines(g: Geometry, o: Owner) {
    forall a: Message, b: Message :: g.Block(a.addr) == g.Block(b.addr) ==> o.hold(a) == o.hold(b)
  }

  /** Interconnect messages enter only through pushFrontOrdered: nothing puts one back. */
  ghost predicate Proper(g: Geometry, e: Event) {
    match e
    case FromAbove(m) => m.source.Upper?
    case FromElsewhere(m, _, _) => !m.source.Upper?
    case Mark => true
    case Take(o) => HoldsLines(g, o)
  }

  /** The first n elements are exactly the queued interconnect messages. */
  ghost predicate UppersFirst(buffer: seq<Element>, n: nat) {
    && n <= |buffer|
    && (forall i :: 0 <= i < n ==> buffer[i].item.source.Upper? && buffer[i].status.Ready?)
    && (forall i :: n <= i < |buffer| ==> !buffer[i].item.source.Upper?)
  }

  /** The interconnect messages still queued. */
  ghost function Queued(s: Intake): seq<Message> {
    var n := |s.delivered| - |s.taken|;
    if 0 <= n <= |s.q.buffer| then Items(s.q.buffer[..n]) else []
  }

  ghost predicate LineInOrder(g: Geometry, s: Intake, addr: nat) {
    LineSplits(g, s.delivered, s.taken, Queued(s), addr)
  }

  ghost predicate InDeliveryOrder(g: Geometry, s: Intake) {
    && (s.q.lines.Some? ==> s.q.lines.value == g)
    && |s.taken| <= |s.delivered|
    && UppersFirst(s.q.buffer, |s.delivered| - |s.taken|)
    && forall addr :: LineInOrder(g, s, addr)
  }

  /** Of one line, what was delivered is what was taken and then what is queued. */
  ghost predicate LineSplits(g: Geometry, delivered: seq<Message>, taken: seq<Message>, queued: seq<Message>, addr: nat) {
    ToLine(g, delivered, addr) == ToLine(g, taken, addr) + ToLine(g, queued, addr)
  }

  lemma {:induction false} DeliverOne(g: Geometry, delivered: seq<Message>, taken: seq<Message>, queued: seq<Message>, m: Message, addr: nat)
    requires LineSplits(g, delivered, taken, queued, addr)
    ensures LineSplits(g, delivered + [m], taken, queued + [m], addr)
  {
    FilterLast(delivered, m, To(g, addr));
    FilterLast(queued, m, To(g, addr));
    var one := if To(g, addr)(m) then [m] else [];
    AddBehind(ToLine(g, taken, addr), ToLine(g, queued, addr), one);
  }

  lemma AddBehind(taken: seq<Message>, queued: seq<Message>, one: seq<Message>)
    ensures (taken + queued) + one == taken + (queued + one)
  {
  }

  /** Taking the first queued message of its line keeps every line in order. */
  lemma TakeOne(g: Geometry, delivered: seq<Message>, taken: seq<Message>, before: seq<Message>, m: Message,
                after: seq<Message>, addr: nat)
    requires LineSplits(g, delivered, taken, before + [m] + after, addr)
    requires forall i :: 0 <= i < |before| ==> g.Block(before[i].addr) != g.Block(m.addr)
    ensures LineSplits(g, delivered, taken + [m], before + after, addr)
  {
    var one := ToLine(g, [m], addr);
    FilterConcat(before + [m], after, To(g, addr));
    FilterConcat(before, [m], To(g, addr));
    FilterConcat(before, after, To(g, addr));
    FilterConcat(taken, [m], To(g, addr));
    if g.Block(m.addr) == g.Block(addr) {
      FilterNone(before, To(g, addr));
    } else {
      FilterNone([m], To(g, addr));
    }
    MoveAcross(ToLine(g, taken, addr), ToLine(g, before, addr), one, ToLine(g, after, addr));
  }

  lemma MoveAcross(taken: seq<Message>, before: seq<Message>, one: seq<Message>, after: seq<Message>)
    requires before == [] || one == []
    ensures taken + (before + one + after) == (taken + one) + (before + after)
  {
  }

  /** If an interconnect message is returned, no older one to its line is still queued. */
  lemma {:induction false} NoOlderToItsLine(g: Geometry, o: Owner, q: Queue, n: nat, k: nat, e: nat)
    requires q.lines.Some? ==> q.lines.value == g
    requires HoldsLines(g, o) && UppersFirst(q.buffer, n)
    requires k == FirstHit(o, q, 0) && e < k < n
    ensures g.Block(q.buffer[e].item.addr) != g.Block(q.buffer[k].item.addr)
    decreases e
  {
    forall j | 0 <= j < e ensures g.Block(q.buffer[j].item.addr) != g.Block(q.buffer[k].item.addr) {
      NoOlderToItsLine(g, o, q, n, k, j);
    }
    assert !Hits(o, q, e) && Hits(o, q, k);
    if BehindSameLine(q.buffer, q.lines, e) {
      var j :| 0 <= j < e && g.SameLine(q.buffer[j].item.addr, q.buffer[e].item.addr);
      SameLineIsSameBlock(g, q.buffer[j].item.addr, q.buffer[e].item.addr);
    }
  }

  /** The scan changes nothing in the interconnect messages it passes over. */
  lemma PassedUppersStay(o: Owner, q: Queue, n: nat, k: nat)
    requires UppersFirst(q.buffer, n) && k == FirstHit(o, q, 0)
    ensures forall i :: 0 <= i < n ==> ScannedTo(o, q, k)[i] == q.buffer[i]
    ensures forall i :: n <= i < |q.buffer| ==> ScannedTo(o, q, k)[i].item == q.buffer[i].item
  {
    forall i | 0 <= i < k && i < n ensures ScannedTo(o, q, k)[i] == q.buffer[i] {
      assert !Hits(o, q, i);
    }
  }

  lemma ScanTakesUpper(o: Owner, q: Queue, n: nat, k: nat)
    requires UppersFirst(q.buffer, n) && k == FirstHit(o, q, 0) < n
    ensures Scan(o, q) == (Item(q.buffer[k].item), q.(buffer := q.buffer[..k] + q.buffer[k + 1..]))
  {
    PassedUppersStay(o, q, n, k);
    assert Hits(o, q, k);
    assert ScannedTo(o, q, k)[..k] == q.buffer[..k] && ScannedTo(o, q, k)[k + 1..] == q.buffer[k + 1..];
  }

  /** Changes behind the interconnect's messages leave them first. */
  lemma BehindUppers(b: seq<Element>, after: seq<Element>, n: nat)
    requires UppersFirst(b, n) && n <= |after|
    requires forall i :: 0 <= i < n ==> after[i] == b[i]
    requires forall i :: n <= i < |after| ==> !after[i].item.source.Upper?
    ensures UppersFirst(after, n) && after[..n] == b[..n]
  {
  }

  /** The scanned buffer, with its k-th element taken out or replaced by one with the same item. */
  lemma {:induction false} ScannedBehindUppers(o: Owner, q: Queue, n: nat, after: seq<Element>)
    requires UppersFirst(q.buffer, n) && n <= FirstHit(o, q, 0)
    requires var (k, scanned) := (FirstHit(o, q, 0), ScannedTo(o, q, FirstHit(o, q, 0)));
      || after == scanned
      || (k < |q.buffer| && after == scanned[..k] + scanned[k + 1..])
      || (k < |q.buffer| && after == scanned[k := Element(q.buffer[k].item, Waiting)])
    ensures UppersFirst(after, n) && after[..n] == q.buffer[..n]
  {
    var k, scanned := FirstHit(o, q, 0), ScannedTo(o, q, FirstHit(o, q, 0));
    PassedUppersStay(o, q, n, k);
    if |after| == |scanned| {
      BehindUppers(q.buffer, after, n);
    } else {
      forall i | n <= i < |after| ensures !after[i].item.source.Upper? {
        assert after[i] == scanned[if i < k then i else i + 1];
      }
      BehindUppers(q.buffer, after, n);
    }
  }

  lemma {:induction false} ScanLeavesUppers(o: Owner, q: Queue, n: nat)
    requires UppersFirst(q.buffer, n) && FirstHit(o, q, 0) >= n
    ensures var b := Scan(o, q).1.buffer; UppersFirst(b, n) && b[..n] == q.buffer[..n]
    ensures Scan(o, q).0.Item? ==> !Scan(o, q).0.m.source.Upper?
  {
    ScannedBehindUppers(o, q, n, Scan(o, q).1.buffer);
  }

  lemma WithoutOne(b: seq<Element>, n: nat, k: nat)
    requires UppersFirst(b, n) && k < n
    ensures UppersFirst(b[..k] + b[k + 1..], n - 1)
    ensures Items(b[..n]) == Items(b[..k]) + [b[k].item] + Items(b[k + 1..n])
    ensures Items((b[..k] + b[k + 1..])[..n - 1]) == Items(b[..k]) + Items(b[k + 1..n])
  {
    assert (b[..k] + b[k + 1..])[..n - 1] == b[..k] + b[k + 1..n];
  }

  lemma {:induction false} InsertGoesBehindUppers(b: seq<Element>, n: nat)
    requires UppersFirst(b, n)
    ensures InsertAt(b, Upper) == n
  {
    if b != [] && n < |b| { InsertGoesBehindUppers(b[..|b| - 1], n); }
  }

  lemma FirstOfItsLine(g: Geometry, o: Owner, q: Queue, n: nat)
    requires q.lines.Some? ==> q.lines.value == g
    requires HoldsLines(g, o) && UppersFirst(q.buffer, n) && FirstHit(o, q, 0) < n
    ensures var k := FirstHit(o, q, 0);
      forall i :: 0 <= i < k ==> g.Block(Items(q.buffer[..k])[i].addr) != g.Block(q.buffer[k].item.addr)
  {
    var k := FirstHit(o, q, 0);
    forall i | 0 <= i < k ensures g.Block(Items(q.buffer[..k])[i].addr) != g.Block(q.buffer[k].item.addr) {
      NoOlderToItsLine(g, o, q, n, k, i);
    }
  }

  lemma {:induction false} TakeUpperKeepsOrder(g: Geometry, s: Intake, s': Intake, n: nat, k: nat)
    requires InDeliveryOrder(g, s) && n == |s.delivered| - |s.taken| && k < n
    requires forall i :: 0 <= i < k ==> g.Block(Items(s.q.buffer[..k])[i].addr) != g.Block(s.q.buffer[k].item.addr)
    requires s' == s.(q := s.q.(buffer := s.q.buffer[..k] + s.q.buffer[k + 1..]), taken := s.taken + [s.q.buffer[k].item])
    ensures InDeliveryOrder(g, s')
  {
    var b := s.q.buffer;
    WithoutOne(b, n, k);
    forall addr ensures LineInOrder(g, s', addr) {
      assert LineInOrder(g, s, addr);
      TakeOne(g, s.delivered, s.taken, Items(b[..k]), b[k].item, Items(b[k + 1..n]), addr);
    }
  }

  lemma {:induction false} SameUppersKeepOrder(g: Geometry, s: Intake, s': Intake)
    requires InDeliveryOrder(g, s) && s'.delivered == s.delivered && s'.taken == s.taken && s'.q.lines == s.q.lines
    requires UppersFirst(s'.q.buffer, |s.delivered| - |s.taken|)
    requires s'.q.buffer[..|s.delivered| - |s.taken|] == s.q.buffer[..|s.delivered| - |s.taken|]
    ensures InDeliveryOrder(g, s')
  {
    forall addr ensures LineInOrder(g, s', addr) { assert LineInOrder(g, s, addr); }
  }

  lemma {:induction false} TakeKeepsOrder(g: Geometry, s: Intake, o: Owner)
    requires InDeliveryOrder(g, s) && HoldsLines(g, o)
    ensures InDeliveryOrder(g, Step(s, Take(o)))
  {
    var n, k := |s.delivered| - |s.taken|, FirstHit(o, s.q, 0);
    var s' := Step(s, Take(o));
    if s.q.stateOnly && !s.q.dirty {
    } else if k >= n {
      ScanLeavesUppers(o, s.q, n);
      SameUppersKeepOrder(g, s, s');
    } else {
      ScanTakesUpper(o, s.q, n, k);
      FirstOfItsLine(g, o, s.q, n);
      TakeUpperKeepsOrder(g, s, s', n, k);
    }
  }

  lemma InsertBehind(b: seq<Element>, n: nat, e: Element)
    requires UppersFirst(b, n) && e.item.source.Upper? && e.status.Ready?
    ensures var after := b[..n] + [e] + b[n..];
      UppersFirst(after, n + 1) && after[..n + 1] == b[..n] + [e]
  {
    var after := b[..n] + [e] + b[n..];
    forall i | n + 1 <= i < |after| ensures !after[i].item.source.Upper? { assert after[i] == b[i - 1]; }
  }

  lemma {:induction false} DeliverBehindUppers(s: Intake, m: Message, n: nat)
    requires UppersFirst(s.q.buffer, n) && n == |s.delivered| - |s.taken| && m.source.Upper?
    ensures var s' := Step(s, FromAbove(m));
      UppersFirst(s'.q.buffer, n + 1) && Queued(s') == Queued(s) + [m]
  {
    InsertGoesBehindUppers(s.q.buffer, n);
    InsertBehind(s.q.buffer, n, Element(m, Ready));
    assert Items(s.q.buffer[..n] + [Element(m, Ready)]) == Items(s.q.buffer[..n]) + [m];
  }

  lemma {:induction false} DeliveryKeepsOrder(g: Geometry, s: Intake, m: Message)
    requires InDeliveryOrder(g, s) && m.source.Upper?
    ensures InDeliveryOrder(g, Step(s, FromAbove(m)))
  {
    var s' := Step(s, FromAbove(m));
    DeliverBehindUppers(s, m, |s.delivered| - |s.taken|);
    forall addr ensures LineInOrder(g, s', addr) {
      assert LineInOrder(g, s, addr);
      DeliverOne(g, s.delivered, s.taken, Queued(s), m, addr);
    }
  }

  lemma {:induction false} StepKeepsOrder(g: Geometry, s: Intake, e: Event)
    requires InDeliveryOrder(g, s) && Proper(g, e)
    ensures InDeliveryOrder(g, Step(s, e))
  {
    match e
    case FromAbove(m) => DeliveryKeepsOrder(g, s, m);
    case FromElsewhere(m, status, force) =>
      SameUppersKeepOrder(g, s, Step(s, e));
    case Mark =>
      SameUppersKeepOrder(g, s, Step(s, e));
    case Take(o) => TakeKeepsOrder(g, s, o);
  }

  /** Over every run the interconnect messages of one line are taken in the order the interconnect
      delivered them, and the rest are still queued in that order. */
  lemma {:induction false} LinesAreServedInDeliveryOrder(g: Geometry, s: Intake, events: seq<Event>, addr: nat)
    requires InDeliveryOrder(g, s) && forall e :: e in events ==> Proper(g, e)
    ensures InDeliveryOrder(g, RunAll(s, events))
    ensures ToLine(g, RunAll(s, events).taken, addr) <= ToLine(g, RunAll(s, events).delivered, addr)
    decreases |events|
  {
    if events != [] {
      var n := |events| - 1;
      LinesAreServedInDeliveryOrder(g, s, events[..n], addr);
      assert events[n] in events;
      StepKeepsOrder(g, RunAll(s, events[..n]), events[n]);
    }
    assert LineInOrder(g, RunAll(s, events), addr);
  }

  lemma NewIntakeQualifies(g: Geometry, maxSize: int, stateOnly: bool)
    ensures InDeliveryOrder(g, Intake(Queue([], true, Some(g), maxSize, stateOnly), [], []))
  {
  }
}

module Requeue {
  import opened Wrappers
  import opened Messages
  import opened QueueModel

  /** processLogic puts a popped request back with a plain pushBack and does not look at the answer.
      The slot it relies on is there exactly when the queue was within its bound before the pop;
      otherwise the request is gone from the queue. */
  lemma {:induction false} RequeueFindsASlot(o: Owner, q: Queue, m: Message)
    requires GetFirstReady(o, q) == (Item(m), GetFirstReady(o, q).1) && |GetFirstReady(o, q).1.buffer| < |q.buffer|
    ensures var popped := GetFirstReady(o, q).1;
      var back := PushBack(popped, m, NonReady, false);
      && (!Refuses(popped, NonReady, false) <==> q.maxSize == -1 || |q.buffer| <= q.maxSize)
      && (Refuses(popped, NonReady, false) ==> back == popped && |back.buffer| == |q.buffer| - 1)
      && (!Refuses(popped, NonReady, false) ==> |back.buffer| == |q.buffer| && back.buffer[|q.buffer| - 1].item == m)
  {
  }

  /** Forced pushes take the queue past its bound, and then a request that fails admission is lost:
      one demand request in a queue of size one, joined by a forced write-back. */
  lemma {:induction false} ForcedPushLosesARequeuedRequest(load: Message, writeBack: Message)
    ensures var o := Owner((m, s) => Ready, m => false);
      var q := PushBack(PushBack(Queue([], true, None, 1, true), load, NonReady, false), writeBack, NonReady, true);
      var (got, popped) := GetFirstReady(o, q);
      && got == Item(load)
      && PushBack(popped, load, NonReady, false).buffer == [Element(writeBack, NonReady)]
  {
    var o := Owner((m, s) => Ready, m => false);
    var q := PushBack(PushBack(Queue([], true, None, 1, true), load, NonReady, false), writeBack, NonReady, true);
    assert Hits(o, q, 0);
    assert FirstHit(o, q, 0) == 0;
  }

  /** A request put back goes behind everything queued meanwhile. If that includes a younger request
      to its own line, the per-line gate then serves the younger one first: of two loads to one line,
      of which the first fails admission once, the second leaves first. */
  lemma {:induction false} RequeueLosesItsPlace(g: Geometry.Geometry, first: Message, second: Message)
    requires first.IsDemandRequest() && second.IsDemandRequest() && g.Block(first.addr) == g.Block(second.addr)
    ensures var o := Owner((m, s) => Ready, m => false);
      var q := PushBack(PushBack(Queue([], true, Some(g), -1, true), first, NonReady, false), second, NonReady, false);
      var (got, popped) := GetFirstReady(o, q);
      var (next, rest) := GetFirstReady(o, PushBack(popped, first, NonReady, false));
      && got == Item(first) && next == Item(second) && rest.buffer == [Element(first, NonReady)]
  {
    var o := Owner((m, s) => Ready, m => false);
    var q := PushBack(PushBack(Queue([], true, Some(g), -1, true), first, NonReady, false), second, NonReady, false);
    assert Hits(o, q, 0) && FirstHit(o, q, 0) == 0;
    var popped := GetFirstReady(o, q).1;
    assert popped.buffer == [Element(second, NonReady)];
    var again := PushBack(popped, first, NonReady, false);
    assert again.buffer == [Element(second, NonReady), Element(first, NonReady)];
    assert Hits(o, again, 0) && FirstHit(o, again, 0) == 0;
  }
}

/** The order in which demand requests and invalidations of one line leave, when some of them are put
    back: by processLogic after a failed admission or a stall, or by pipelineFire. */
module PutBackOrder {
  import opened Wrappers
  import opened Sequences
  import opened Messages
  import opened Geometry
  import opened QueueModel
  import LineOrder

  /** One line, as one side sends to it. (The interconnect's messages enter ahead of the other side's:
      the two sides have an order each.) */
  datatype Lane = Lane(g: Geometry, addr: nat, side: Source)

  predicate In(l: Lane, m: Message) {
    m.IsOrdered() && m.source == l.side && l.g.Block(m.addr) == l.g.Block(l.addr)
  }

  function On(l: Lane): Message -> bool { (m: Message) => In(l, m) }

  function Of(l: Lane, ms: seq<Message>): seq<Message> { Filter(ms, On(l)) }

  /** A queue, the messages accepted from outside in order of arrival, those taken and not yet settled
      (by line: the interlock lets out one of a line), and those that have left for good. */
  datatype Traffic = Traffic(q: Queue, arrived: seq<Message>, out: map<nat, Message>, left: seq<Message>)

  datatype Event =
    | Arrive(m: Message, status: Status, force: bool)   // pushBack
    | ArriveInOrder(m: Message)                         // pushFrontOrdered
    | Mark
    | Take(o: Owner)                                    // getFirstReady
    | Leave(line: nat)                                  // its row ran
    | Return(line: nat, force: bool)                    // pushBack of a message taken before

  /** A put-back the queue refuses is for good. */
  function Step(g: Geometry, s: Traffic, e: Event): Traffic {
    match e
    case Arrive(m, status, force) =>
      if Refuses(s.q, status, force) then s else s.(q := PushBack(s.q, m, status, force), arrived := s.arrived + [m])
    case ArriveInOrder(m) => s.(q := PushFrontOrdered(s.q, m), arrived := s.arrived + [m])
    case Mark => s.(q := s.q.(dirty := true))
    case Take(o) =>
      var (got, q) := GetFirstReady(o, s.q);
      if got.Item? then s.(q := q, out := s.out[g.Block(got.m.addr) := got.m]) else s.(q := q)
    case Leave(b) => if b in s.out then s.(out := s.out - {b}, left := s.left + [s.out[b]]) else s
    case Return(b, force) =>
      if b !in s.out then s
      else if Refuses(s.q, NonReady, force) then s.(out := s.out - {b}, left := s.left + [s.out[b]])
      else s.(q := PushBack(s.q, s.out[b], NonReady, force), out := s.out - {b})
  }

  function RunAll(g: Geometry, s: Traffic, events: seq<Event>): Traffic {
    if events == [] then s else Step(g, RunAll(g, s, events[..|events| - 1]), events[|events| - 1])
  }

  /** Sides enter through their own push; the interlock holds the lines of what is out; readiness asks
      for no action. */
  ghost predicate Proper(g: Geometry, s: Traffic, e: Event) {
    match e
    case Arrive(m, _, _) => !m.source.Upper?
    case ArriveInOrder(m) => m.source.Upper?
    case Take(o) =>
      && (forall m: Message :: g.Block(m.addr) in s.out ==> o.hold(m))
      && (forall m, st :: !o.check(m, st).NeedsAction?)
    case _ => true
  }

  ghost predicate AllProper(g: Geometry, s: Traffic, events: seq<Event>) {
    forall i :: 0 <= i < |events| ==> Proper(g, RunAll(g, s, events[..i]), events[i])
  }

  function Queued(l: Lane, s: Traffic): seq<Message> { Of(l, LineOrder.Items(s.q.buffer)) }

  function Out(l: Lane, s: Traffic): seq<Message> {
    var b := l.g.Block(l.addr);
    if b in s.out && In(l, s.out[b]) then [s.out[b]] else []
  }

  /** What has left, what is out and what is queued are the arrivals, in order. */
  ghost predicate InOrder(l: Lane, s: Traffic) {
    Splits(Of(l, s.left), Out(l, s), Queued(l, s), Of(l, s.arrived))
  }

  ghost predicate Splits(left: seq<Message>, out: seq<Message>, queued: seq<Message>, arrived: seq<Message>) {
    left + out + queued == arrived
  }

  /** A request of this lane goes back behind a younger one. */
  ghost predicate Overtaken(l: Lane, s: Traffic, e: Event) {
    && e.Return? && e.line in s.out && In(l, s.out[e.line]) && e.line == l.g.Block(l.addr)
    && !Refuses(s.q, NonReady, e.force) && Queued(l, s) != []
  }

  /** `out` names lines as its messages do. */
  ghost predicate OutMatches(g: Geometry, s: Traffic) { forall b :: b in s.out ==> g.Block(s.out[b].addr) == b }

  /** What a get takes out of the queue, if anything: one item, with nothing ordered of its line
      before it. */
  lemma {:induction false} TakeTakesFirst(o: Owner, q: Queue)
    requires forall m, st :: !o.check(m, st).NeedsAction?
    ensures var (got, q') := GetFirstReady(o, q);
      match got
      case Nothing => LineOrder.Items(q'.buffer) == LineOrder.Items(q.buffer)
      case Item(m) => exists k :: 0 <= k < |q.buffer| && TakenAt(o, q, q', m, k)
  {
    var k := FirstHit(o, q, 0);
    if !(q.stateOnly && !q.dirty) && k < |q.buffer| {
      assert Hits(o, q, k);
      WithoutItem(q, ScannedTo(o, q, k), k);
      assert TakenAt(o, q, Scan(o, q).1, q.buffer[k].item, k);
    }
  }

  lemma {:induction false} WithoutItem(q: Queue, scanned: seq<Element>, k: nat)
    requires k < |q.buffer| == |scanned| && forall i :: 0 <= i < |scanned| ==> scanned[i].item == q.buffer[i].item
    ensures LineOrder.Items(scanned[..k] + scanned[k + 1..])
      == LineOrder.Items(q.buffer[..k]) + LineOrder.Items(q.buffer[k + 1..])
  {
  }

  ghost predicate TakenAt(o: Owner, q: Queue, q': Queue, m: Message, k: nat)
    requires k < |q.buffer|
  {
    && q.buffer[k].item == m && !o.hold(m) && !BehindSameLine(q.buffer, q.lines, k)
    && LineOrder.Items(q'.buffer) == LineOrder.Items(q.buffer[..k]) + LineOrder.Items(q.buffer[k + 1..])
  }

  lemma {:induction false} SplitAtItem(b: seq<Element>, k: nat)
    requires k < |b|
    ensures LineOrder.Items(b) == LineOrder.Items(b[..k]) + [b[k].item] + LineOrder.Items(b[k + 1..])
  {
  }

  /** What is taken of a lane is its first. */
  lemma {:induction false} TakeIsFirstOfLane(l: Lane, o: Owner, q: Queue, q': Queue, m: Message, k: nat)
    requires q.lines == Some(l.g) && k < |q.buffer| && TakenAt(o, q, q', m, k)
    ensures Of(l, LineOrder.Items(q.buffer)) == (if In(l, m) then [m] else []) + Of(l, LineOrder.Items(q'.buffer))
  {
    var before, after := LineOrder.Items(q.buffer[..k]), LineOrder.Items(q.buffer[k + 1..]);
    SplitAtItem(q.buffer, k);
    FilterConcat(before + [m], after, On(l));
    FilterLast(before, m, On(l));
    FilterConcat(before, after, On(l));
    if In(l, m) {
      forall i | 0 <= i < |before| ensures !In(l, before[i]) {
        SameLineIsSameBlock(l.g, q.buffer[i].item.addr, q.buffer[k].item.addr);
      }
      FilterNone(before, On(l));
    }
  }

  /** Of a lane, exactly what was taken from it is newly out. */
  lemma {:induction false} OutAfterTake(l: Lane, s: Traffic, m: Message)
    requires l.g.Block(m.addr) !in s.out
    ensures var t := s.(out := s.out[l.g.Block(m.addr) := m]);
      Out(l, t) == if In(l, m) then [m] else Out(l, s)
    ensures In(l, m) ==> Out(l, s) == []
  {
  }

  lemma {:induction false} TakeKeepsOrder(l: Lane, s: Traffic, o: Owner)
    requires InOrder(l, s) && s.q.lines == Some(l.g) && Proper(l.g, s, Take(o))
    ensures InOrder(l, Step(l.g, s, Take(o)))
  {
    TakeTakesFirst(o, s.q);
    var (got, q') := GetFirstReady(o, s.q);
    if got.Item? {
      var k :| 0 <= k < |s.q.buffer| && TakenAt(o, s.q, q', got.m, k);
      var t := Step(l.g, s, Take(o));
      assert t == s.(q := q', out := s.out[l.g.Block(got.m.addr) := got.m]);
      TakeIsFirstOfLane(l, o, s.q, q', got.m, k);
      OutAfterTake(l, s, got.m);
      MoveOut(Of(l, s.left), Out(l, s), if In(l, got.m) then [got.m] else [], Queued(l, t), Of(l, s.arrived));
    }
  }

  lemma MoveOut(left: seq<Message>, out: seq<Message>, one: seq<Message>, queued: seq<Message>, arrived: seq<Message>)
    requires Splits(left, out, one + queued, arrived) && (one == [] || out == [])
    ensures Splits(left, if one == [] then out else one, queued, arrived)
  {
    if one == [] { assert one + queued == queued; } else { assert left + one + queued == left + [] + (one + queued); }
  }

  /** A push puts the message behind its lane. */
  lemma {:induction false} PushGoesLast(l: Lane, b: seq<Element>, m: Message, status: Status)
    ensures Of(l, LineOrder.Items(b + [Element(m, status)])) == Of(l, LineOrder.Items(b)) + if In(l, m) then [m] else []
  {
    assert LineOrder.Items(b + [Element(m, status)]) == LineOrder.Items(b) + [m];
    FilterLast(LineOrder.Items(b), m, On(l));
  }

  lemma {:induction false} ItemsWithInsert(b: seq<Element>, pos: nat, m: Message)
    requires pos <= |b|
    ensures LineOrder.Items(b[..pos] + [Element(m, Ready)] + b[pos..])
      == (LineOrder.Items(b[..pos]) + [m]) + LineOrder.Items(b[pos..])
    ensures LineOrder.Items(b) == LineOrder.Items(b[..pos]) + LineOrder.Items(b[pos..])
  {
  }

  lemma {:induction false} InsertGoesLast(l: Lane, before: seq<Message>, m: Message, after: seq<Message>)
    requires In(l, m) ==> Of(l, after) == []
    ensures Of(l, (before + [m]) + after) == Of(l, before + after) + if In(l, m) then [m] else []
  {
    FilterConcat(before + [m], after, On(l));
    FilterLast(before, m, On(l));
    FilterConcat(before, after, On(l));
  }

  lemma {:induction false} FrontGoesLast(l: Lane, b: seq<Element>, m: Message)
    ensures var pos := InsertAt(b, m.source);
      Of(l, LineOrder.Items(b[..pos] + [Element(m, Ready)] + b[pos..])) == Of(l, LineOrder.Items(b)) + if In(l, m) then [m] else []
  {
    var pos := InsertAt(b, m.source);
    ItemsWithInsert(b, pos, m);
    if In(l, m) { FilterNone(LineOrder.Items(b[pos..]), On(l)); }
    InsertGoesLast(l, LineOrder.Items(b[..pos]), m, LineOrder.Items(b[pos..]));
  }

  /** Arrivals and departures keep a lane in order. */
  lemma {:induction false} ArrivalKeepsOrder(l: Lane, s: Traffic, e: Event)
    requires InOrder(l, s) && (e.Arrive? || e.ArriveInOrder?)
    ensures InOrder(l, Step(l.g, s, e))
  {
    FilterLast(s.arrived, e.m, On(l));
    match e
    case Arrive(m, status, force) =>
      PushGoesLast(l, s.q.buffer, m, status);
      MoveIn(Of(l, s.left), Out(l, s), Queued(l, s), Of(l, s.arrived), if In(l, m) then [m] else []);
    case ArriveInOrder(m) =>
      FrontGoesLast(l, s.q.buffer, m);
      MoveIn(Of(l, s.left), Out(l, s), Queued(l, s), Of(l, s.arrived), if In(l, m) then [m] else []);
  }

  lemma MoveIn(left: seq<Message>, out: seq<Message>, queued: seq<Message>, arrived: seq<Message>, one: seq<Message>)
    requires Splits(left, out, queued, arrived)
    ensures Splits(left, out, queued + one, arrived + one)
  {
  }

  lemma {:induction false} DepartureKeepsOrder(l: Lane, s: Traffic, b: nat)
    requires InOrder(l, s) && OutMatches(l.g, s) && b in s.out
    ensures InOrder(l, s.(out := s.out - {b}, left := s.left + [s.out[b]]))
  {
    FilterLast(s.left, s.out[b], On(l));
  }

  ghost predicate Distinct(ms: seq<Message>) { forall i, j :: 0 <= i < j < |ms| ==> ms[i] != ms[j] }

  /** What a put-back does to its lane: the message, out before, is queued last. */
  lemma {:induction false} ReturnGoesLast(l: Lane, s: Traffic, b: nat, force: bool)
    requires OutMatches(l.g, s) && b in s.out && !Refuses(s.q, NonReady, force)
    ensures var t := Step(l.g, s, Return(b, force));
      && t.arrived == s.arrived && t.left == s.left
      && if In(l, s.out[b]) then Out(l, s) == [s.out[b]] && Out(l, t) == [] && Queued(l, t) == Queued(l, s) + [s.out[b]]
         else Out(l, t) == Out(l, s) && Queued(l, t) == Queued(l, s)
  {
    PushGoesLast(l, s.q.buffer, s.out[b], NonReady);
  }

  /** A put-back keeps its lane in order if and only if nothing younger of the lane is queued. */
  lemma {:induction false} ReturnKeepsOrderIff(l: Lane, s: Traffic, b: nat, force: bool)
    requires InOrder(l, s) && OutMatches(l.g, s) && b in s.out && !Refuses(s.q, NonReady, force)
    ensures !Overtaken(l, s, Return(b, force)) ==> InOrder(l, Step(l.g, s, Return(b, force)))
    ensures Overtaken(l, s, Return(b, force)) && Distinct(Of(l, s.arrived)) ==> !InOrder(l, Step(l.g, s, Return(b, force)))
  {
    ReturnGoesLast(l, s, b, force);
    if In(l, s.out[b]) { MoveBack(Of(l, s.left), s.out[b], Queued(l, s), Of(l, s.arrived)); }
  }

  lemma MoveBack(left: seq<Message>, m: Message, queued: seq<Message>, arrived: seq<Message>)
    requires Splits(left, [m], queued, arrived)
    ensures queued == [] ==> Splits(left, [], queued + [m], arrived)
    ensures queued != [] && Distinct(arrived) ==> !Splits(left, [], queued + [m], arrived)
  {
    if queued != [] {
      assert arrived[|left|] == m && arrived[|left| + 1] == queued[0];
      assert (left + [] + (queued + [m]))[|left|] == queued[0];
    }
  }

  lemma {:induction false} StepKeepsOrderIff(l: Lane, s: Traffic, e: Event)
    requires InOrder(l, s) && OutMatches(l.g, s) && s.q.lines == Some(l.g) && Proper(l.g, s, e)
    ensures !Overtaken(l, s, e) ==> InOrder(l, Step(l.g, s, e))
    ensures Overtaken(l, s, e) && Distinct(Of(l, s.arrived)) ==> !InOrder(l, Step(l.g, s, e))
  {
    match e
    case Arrive(m, status, force) => ArrivalKeepsOrder(l, s, e);
    case ArriveInOrder(m) => ArrivalKeepsOrder(l, s, e);
    case Mark =>
    case Take(o) => TakeKeepsOrder(l, s, o);
    case Leave(b) => if b in s.out { DepartureKeepsOrder(l, s, b); }
    case Return(b, force) =>
      if b in s.out {
        if Refuses(s.q, NonReady, force) { DepartureKeepsOrder(l, s, b); } else { ReturnKeepsOrderIff(l, s, b, force); }
      }
  }

  lemma {:induction false} StepKeepsShape(g: Geometry, s: Traffic, e: Event)
    requires OutMatches(g, s)
    ensures OutMatches(g, Step(g, s, e)) && Step(g, s, e).q.lines == s.q.lines
  {
  }

  lemma {:induction false} RunKeepsShape(g: Geometry, s: Traffic, events: seq<Event>)
    requires OutMatches(g, s)
    ensures OutMatches(g, RunAll(g, s, events)) && RunAll(g, s, events).q.lines == s.q.lines
    decreases |events|
  {
    if events != [] {
      RunKeepsShape(g, s, events[..|events| - 1]);
      StepKeepsShape(g, RunAll(g, s, events[..|events| - 1]), events[|events| - 1]);
    }
  }

  lemma {:induction false} ArrivalsGrow(g: Geometry, s: Traffic, events: seq<Event>, n: nat)
    requires n <= |events|
    ensures RunAll(g, s, events[..n]).arrived <= RunAll(g, s, events).arrived
    decreases |events|
  {
    if n < |events| {
      var before := events[..|events| - 1];
      ArrivalsGrow(g, s, before, n);
      assert before[..n] == events[..n];
      StepGrows(g, RunAll(g, s, before), events[|events| - 1]);
    } else {
      assert events[..n] == events;
    }
  }

  lemma StepGrows(g: Geometry, s: Traffic, e: Event)
    ensures s.arrived <= Step(g, s, e).arrived
  {
  }

  lemma {:induction false} PrefixDistinct(l: Lane, a: seq<Message>, b: seq<Message>)
    requires a <= b && Distinct(Of(l, b))
    ensures Distinct(Of(l, a))
  {
    FilterConcat(a, b[|a|..], On(l));
    assert a + b[|a|..] == b;
    assert forall i :: 0 <= i < |Of(l, a)| ==> Of(l, a)[i] == Of(l, b)[i];
  }

  /** The lane is in order at every point of the run. */
  ghost predicate StaysInOrder(l: Lane, s: Traffic, events: seq<Event>) {
    forall n :: 0 <= n <= |events| ==> InOrder(l, RunAll(l.g, s, events[..n]))
  }

  /** No request of the lane is put back while a younger one is queued. */
  ghost predicate NeverOvertaken(l: Lane, s: Traffic, events: seq<Event>) {
    forall n :: 0 <= n < |events| ==> !Overtaken(l, RunAll(l.g, s, events[..n]), events[n])
  }

  /** Per-line order under put-backs: over every run, the demand requests and invalidations of a line
      stay in the order their side sent them, what has left first, at every point of the run, if and
      only if no request is put back while a younger one of the line is queued. */
  lemma {:induction false} InOrderIffNotOvertaken(l: Lane, s: Traffic, events: seq<Event>)
    requires InOrder(l, s) && OutMatches(l.g, s) && s.q.lines == Some(l.g) && AllProper(l.g, s, events)
    requires Distinct(Of(l, RunAll(l.g, s, events).arrived))
    ensures StaysInOrder(l, s, events) <==> NeverOvertaken(l, s, events)
  {
    if StaysInOrder(l, s, events) {
      forall n | 0 <= n < |events| ensures !Overtaken(l, RunAll(l.g, s, events[..n]), events[n]) {
        OneEvent(l, s, events, n);
        assert InOrder(l, RunAll(l.g, s, events[..n + 1]));
      }
    }
    if NeverOvertaken(l, s, events) {
      forall n | 0 <= n <= |events| ensures InOrder(l, RunAll(l.g, s, events[..n])) {
        NotOvertakenStaysInOrder(l, s, events, n);
      }
    }
  }

  lemma {:induction false} OneEvent(l: Lane, s: Traffic, events: seq<Event>, n: nat)
    requires OutMatches(l.g, s) && s.q.lines == Some(l.g) && AllProper(l.g, s, events) && n < |events|
    requires Distinct(Of(l, RunAll(l.g, s, events).arrived)) && InOrder(l, RunAll(l.g, s, events[..n]))
    ensures InOrder(l, RunAll(l.g, s, events[..n + 1])) <==> !Overtaken(l, RunAll(l.g, s, events[..n]), events[n])
  {
    assert events[..n + 1][..n] == events[..n];
    var before := RunAll(l.g, s, events[..n]);
    RunKeepsShape(l.g, s, events[..n]);
    ArrivalsGrow(l.g, s, events, n);
    PrefixDistinct(l, before.arrived, RunAll(l.g, s, events).arrived);
    StepKeepsOrderIff(l, before, events[n]);
  }

  lemma {:induction false} NotOvertakenStaysInOrder(l: Lane, s: Traffic, events: seq<Event>, n: nat)
    requires InOrder(l, s) && OutMatches(l.g, s) && s.q.lines == Some(l.g) && AllProper(l.g, s, events)
    requires Distinct(Of(l, RunAll(l.g, s, events).arrived)) && n <= |events|
    requires NeverOvertaken(l, s, events)
    ensures InOrder(l, RunAll(l.g, s, events[..n]))
  {
    if n > 0 {
      NotOvertakenStaysInOrder(l, s, events, n - 1);
      OneEvent(l, s, events, n - 1);
    }
  }

  /** In order means: what has left is the beginning of what arrived. */
  lemma {:induction false} LeavesInArrivalOrder(l: Lane, s: Traffic, events: seq<Event>)
    requires StaysInOrder(l, s, events)
    ensures Of(l, RunAll(l.g, s, events).left) <= Of(l, RunAll(l.g, s, events).arrived)
  {
    assert events[..|events|] == events;
    assert InOrder(l, RunAll(l.g, s, events[..|events|]));
  }

  lemma NewTrafficQualifies(l: Lane, maxSize: int)
    ensures var s := Traffic(Queue([], true, Some(l.g), maxSize, true), [], map[], []);
      InOrder(l, s) && OutMatches(l.g, s)
  {
  }
}

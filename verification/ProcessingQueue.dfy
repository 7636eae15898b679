/** The processing queue of a controller (FRFCFS_Buffer): first ready, first served, behind a
    per-line order gate, an address interlock and a dirty bit that skips fruitless rescans. */
module QueueModel {
  import opened Wrappers
  import opened Messages
  import opened Geometry

  /** FRFCFS_State. */
  datatype Status = Ready | NonReady | NeedsAction | Waiting

  datatype Element = Element(item: Message, status: Status)

  /** The queue's view of its owner: the readiness callback and the interlock. Whatever else the
      owner does shows only as a different Owner. */
  datatype Owner = Owner(check: (Message, Status) -> Status, hold: Message -> bool)

  /** `lines` None is a zero line mask; `maxSize` -1 is unbounded. */
  datatype Queue = Queue(buffer: seq<Element>, dirty: bool, lines: Option<Geometry>, maxSize: int, stateOnly: bool)

  datatype Got = Nothing | Item(m: Message)

  // ---- pushes -----------------------------------------------------------------------------------

  predicate Refuses(q: Queue, status: Status, force: bool) {
    !force && !status.Ready? && q.maxSize != -1 && |q.buffer| >= q.maxSize
  }

  function PushBack(q: Queue, m: Message, status: Status, force: bool): Queue {
    if Refuses(q, status, force) then q else q.(buffer := q.buffer + [Element(m, status)], dirty := true)
  }

  /** One past the last queued message from the same side. */
  function InsertAt(buffer: seq<Element>, source: Source): (pos: nat)
    ensures pos <= |buffer|
    ensures pos > 0 ==> buffer[pos - 1].item.source == source
    ensures forall i :: pos <= i < |buffer| ==> buffer[i].item.source != source
  {
    if buffer == [] then 0
    else if buffer[|buffer| - 1].item.source == source then |buffer|
    else InsertAt(buffer[..|buffer| - 1], source)
  }

  function PushFrontOrdered(q: Queue, m: Message): Queue {
    var pos := InsertAt(q.buffer, m.source);
    q.(buffer := q.buffer[..pos] + [Element(m, Ready)] + q.buffer[pos..], dirty := true)
  }

  /** The message joined, ready, right behind the last from its side, in front of the others behind that. */
  ghost predicate JoinedBehindItsSide(before: seq<Element>, m: Message, pos: nat, after: seq<Element>) {
    && pos <= |before| && after == before[..pos] + [Element(m, Ready)] + before[pos..]
    && (pos > 0 ==> before[pos - 1].item.source == m.source)
    && forall i :: pos <= i < |before| ==> before[i].item.source != m.source
  }

  function PushFront(q: Queue, m: Message): Queue {
    q.(buffer := [Element(m, Ready)] + q.buffer, dirty := true)
  }

  // ---- the scan ---------------------------------------------------------------------------------

  predicate BehindSameLine(buffer: seq<Element>, lines: Option<Geometry>, i: nat)
    requires i < |buffer|
  {
    && lines.Some? && buffer[i].item.IsOrdered()
    && exists j :: 0 <= j < i && buffer[j].item.IsOrdered() && lines.value.SameLine(buffer[j].item.addr, buffer[i].item.addr)
  }

  predicate Skipped(o: Owner, q: Queue, i: nat)
    requires i < |q.buffer|
  {
    o.hold(q.buffer[i].item) || BehindSameLine(q.buffer, q.lines, i)
  }

  function Verdict(o: Owner, e: Element): Status {
    if e.status.Ready? then Ready else o.check(e.item, e.status)
  }

  predicate Hits(o: Owner, q: Queue, i: nat)
    requires i < |q.buffer|
  {
    !Skipped(o, q, i) && (Verdict(o, q.buffer[i]).Ready? || Verdict(o, q.buffer[i]).NeedsAction?)
  }

  /** The first element at or after i the scan stops at. */
  function FirstHit(o: Owner, q: Queue, i: nat): (k: nat)
    requires i <= |q.buffer|
    ensures i <= k <= |q.buffer|
    ensures forall j :: i <= j < k ==> !Hits(o, q, j)
    ensures k < |q.buffer| ==> Hits(o, q, k)
    decreases |q.buffer| - i
  {
    if i == |q.buffer| || Hits(o, q, i) then i else FirstHit(o, q, i + 1)
  }

  /** What the scan leaves in an element it passed over. */
  function Passed(o: Owner, q: Queue, i: nat): Element
    requires i < |q.buffer|
  {
    if Skipped(o, q, i) then q.buffer[i] else Element(q.buffer[i].item, Verdict(o, q.buffer[i]))
  }

  /** The buffer once the elements below n have been passed over. */
  function ScannedTo(o: Owner, q: Queue, n: nat): (r: seq<Element>)
    requires n <= |q.buffer|
    ensures |r| == |q.buffer|
    ensures forall i :: 0 <= i < n ==> r[i] == Passed(o, q, i)
    ensures forall i :: n <= i < |r| ==> r[i] == q.buffer[i]
  {
    if n == 0 then q.buffer else ScannedTo(o, q, n - 1)[n - 1 := Passed(o, q, n - 1)]
  }

  /** One full scan, dirty bit or not. */
  function Scan(o: Owner, q: Queue): (Got, Queue) {
    var k := FirstHit(o, q, 0);
    var scanned := ScannedTo(o, q, k);
    if k == |q.buffer| then (Nothing, q.(buffer := scanned, dirty := false))
    else if Verdict(o, q.buffer[k]).Ready? then
      (Item(q.buffer[k].item), q.(buffer := scanned[..k] + scanned[k + 1..]))
    else
      (Item(q.buffer[k].item), q.(buffer := scanned[k := Element(q.buffer[k].item, Waiting)]))
  }

  /** getFirstReady. */
  function GetFirstReady(o: Owner, q: Queue): (Got, Queue) {
    if q.stateOnly && !q.dirty then (Nothing, q) else Scan(o, q)
  }
}

module ProcessingQueue {
  import opened Wrappers
  import opened Messages
  import opened Geometry
  import opened QueueModel

  class FrfcfsBuffer {
    const lines: Option<Geometry>
    const maxSize: int
    const stateOnly: bool
    var buffer: seq<Element>
    var dirty: bool

    function AsQueue(): Queue
      reads this
    {
      Queue(buffer, dirty, lines, maxSize, stateOnly)
    }

    constructor (lines: Option<Geometry>, maxSize: int, stateOnly: bool)
      ensures AsQueue() == Queue([], true, lines, maxSize, stateOnly)
    {
      this.lines, this.maxSize, this.stateOnly := lines, maxSize, stateOnly;
      buffer, dirty := [], true;
    }

    method PushBack(m: Message, status: Status, force: bool) returns (ok: bool)
      modifies this
      ensures ok <==> !Refuses(old(AsQueue()), status, force)
      ensures ok <==> force || status == Ready || maxSize == -1 || |old(buffer)| < maxSize
      ensures if ok then buffer == old(buffer) + [Element(m, status)] && dirty else buffer == old(buffer) && dirty == old(dirty)
      ensures AsQueue() == QueueModel.PushBack(old(AsQueue()), m, status, force)
    {
      if !force && !status.Ready? && maxSize != -1 && |buffer| >= maxSize { return false; }
      buffer := buffer + [Element(m, status)];
      dirty := true;
      ok := true;
    }

    method PushFrontOrdered(m: Message)
      modifies this
      ensures AsQueue() == QueueModel.PushFrontOrdered(old(AsQueue()), m)
      ensures dirty && exists pos :: 0 <= pos <= |old(buffer)| && JoinedBehindItsSide(old(buffer), m, pos, buffer)
    {
      var pos := 0;
      var i := |buffer| - 1;
      while i >= 0
        invariant -1 <= i < |buffer|
        invariant pos == 0 && InsertAt(buffer, m.source) == InsertAt(buffer[..i + 1], m.source)
      {
        assert buffer[..i + 1][..i] == buffer[..i];
        if buffer[i].item.source == m.source {
          pos := i + 1;
          break;
        }
        i := i - 1;
      }
      assert pos == InsertAt(buffer, m.source);
      buffer := buffer[..pos] + [Element(m, Ready)] + buffer[pos..];
      assert JoinedBehindItsSide(old(buffer), m, pos, buffer);
      dirty := true;
    }

    method PushFront(m: Message)
      modifies this
      ensures AsQueue() == QueueModel.PushFront(old(AsQueue()), m)
      ensures buffer == [Element(m, Ready)] + old(buffer) && dirty
    {
      buffer := [Element(m, Ready)] + buffer;
      dirty := true;
    }

    method MarkDirty()
      modifies this`dirty
      ensures AsQueue() == old(AsQueue()).(dirty := true)
    {
      dirty := true;
    }

    /** The per-line gate of getFirstReady. */
    method BehindOlderSameLine(i: nat) returns (blocked: bool)
      requires i < |buffer|
      ensures blocked <==> BehindSameLine(buffer, lines, i)
    {
      var item := buffer[i].item;
      if lines.None? || !item.IsOrdered() { return false; }
      var j := 0;
      while j < i
        invariant j <= i
        invariant forall k :: 0 <= k < j ==>
          !(buffer[k].item.IsOrdered() && lines.value.SameLine(buffer[k].item.addr, item.addr))
      {
        if buffer[j].item.IsOrdered() && lines.value.SameLine(buffer[j].item.addr, item.addr) { return true; }
        j := j + 1;
      }
      blocked := false;
    }

    method GetFirstReady(o: Owner) returns (got: Got)
      modifies this
      ensures (got, AsQueue()) == QueueModel.GetFirstReady(o, old(AsQueue()))
    {
      if stateOnly && !dirty { return Nothing; }
      if buffer == [] {
        dirty := false;
        return Nothing;
      }
      ghost var start := AsQueue();
      var i := 0;
      while i < |buffer|
        invariant i <= |buffer| == |start.buffer| && dirty == start.dirty
        invariant buffer == ScannedTo(o, start, i)
        invariant FirstHit(o, start, 0) == FirstHit(o, start, i)
      {
        var e := buffer[i];
        var blocked := BehindOlderSameLine(i);
        GateSeesItemsOnly(start.buffer, buffer, lines, i);
        if !o.hold(e.item) && !blocked {
          var status := if e.status.Ready? then Ready else o.check(e.item, e.status);
          if status.Ready? {
            buffer := buffer[..i] + buffer[i + 1..];
            return Item(e.item);
          }
          if status.NeedsAction? {
            buffer := buffer[i := Element(e.item, Waiting)];
            return Item(e.item);
          }
          buffer := buffer[i := Element(e.item, status)];
        }
        i := i + 1;
      }
      dirty := false;
      got := Nothing;
    }
  }

  lemma GateSeesItemsOnly(a: seq<Element>, b: seq<Element>, lines: Option<Geometry>, i: nat)
    requires i < |a| == |b| && forall k :: 0 <= k <= i ==> a[k].item == b[k].item
    ensures BehindSameLine(a, lines, i) <==> BehindSameLine(b, lines, i)
  {
  }
}

/** What the order of data operations means for memory (gem5/octopus.hh, "Same-core ordering").

    A bridge accepts packets in one order and performs them in another. The rule it keeps is that a
    packet waits for every older write that overlaps it. This module proves what that rule buys:
    memory ends up as if the writes ran in acceptance order, and a read returns what it would have
    returned in acceptance order unless a younger overlapping write overtook it. */
module BridgeOrder {
  type Byte = bv8
  type Memory = seq<Byte>

  /** One accepted CPU request. A write (store, store-exclusive, swap, atomic) is any function of
      the bytes it addresses. */
  datatype Packet = Packet(addr: nat, size: nat, isWrite: bool, effect: seq<Byte> -> seq<Byte>)

  predicate Overlap(p: Packet, q: Packet) {
    p.addr < q.addr + q.size && q.addr < p.addr + p.size
  }

  ghost predicate Covers(p: Packet, b: nat) { p.addr <= b < p.addr + p.size }

  /** Overlapping is having a byte in common. */
  lemma OverlapIff(p: Packet, q: Packet)
    requires p.size > 0 && q.size > 0
    ensures Overlap(p, q) <==> exists b: nat :: Covers(p, b) && Covers(q, b)
  {
    if Overlap(p, q) {
      var b := if p.addr >= q.addr then p.addr else q.addr;
      assert Covers(p, b) && Covers(q, b);
    }
  }

  predicate InMemory(p: Packet, mem: Memory) { p.addr + p.size <= |mem| }

  /** The bytes a packet addresses. */
  function Region(p: Packet, mem: Memory): seq<Byte> {
    if InMemory(p, mem) then mem[p.addr..p.addr + p.size] else []
  }

  /** These are exactly the packet's bytes as they stand in memory. */
  ghost predicate CarriesBytes(data: seq<Byte>, p: Packet, mem: Memory) {
    InMemory(p, mem) && |data| == p.size && forall k :: 0 <= k < p.size ==> data[k] == mem[p.addr + k]
  }

  lemma RegionCarriesBytes(p: Packet, mem: Memory)
    requires InMemory(p, mem)
    ensures CarriesBytes(Region(p, mem), p, mem)
  {
  }

  /** AbstractMemory::access() as far as memory goes. */
  function Apply(p: Packet, mem: Memory): (r: Memory)
    ensures |r| == |mem|
    ensures forall b :: 0 <= b < |mem| && !Covers(p, b) ==> r[b] == mem[b]
    ensures !p.isWrite ==> r == mem
  {
    if !p.isWrite || !InMemory(p, mem) || |p.effect(Region(p, mem))| != p.size then mem
    else mem[..p.addr] + p.effect(Region(p, mem)) + mem[p.addr + p.size..]
  }

  /** A write of bytes that are there, which yields a value for each of them. */
  ghost predicate Stores(p: Packet, mem: Memory) {
    p.isWrite && InMemory(p, mem) && |p.effect(Region(p, mem))| == p.size
  }

  /** A store leaves in its bytes what it makes of the bytes it finds there, and every other byte as it
      was; anything else leaves memory as it was. */
  lemma StoreLeavesItsEffect(p: Packet, mem: Memory)
    ensures Stores(p, mem) ==> CarriesBytes(p.effect(Region(p, mem)), p, Apply(p, mem))
    ensures forall b :: 0 <= b < |mem| && !(Stores(p, mem) && Covers(p, b)) ==> Apply(p, mem)[b] == mem[b]
  {
  }

  /** What a packet leaves in its own bytes depends on those bytes only. */
  lemma ApplyIsLocal(p: Packet, mem: Memory, other: Memory, b: nat)
    requires |mem| == |other| && b < |mem| && Region(p, mem) == Region(p, other)
    requires if Covers(p, b) then InMemory(p, mem) else mem[b] == other[b]
    ensures Apply(p, mem)[b] == Apply(p, other)[b]
  {
    if Covers(p, b) {
      assert mem[b] == Region(p, mem)[b - p.addr] && other[b] == Region(p, other)[b - p.addr];
    }
  }

  lemma {:induction false} ApplyCommutes(p: Packet, q: Packet, mem: Memory)
    requires p.isWrite && q.isWrite ==> !Overlap(p, q)
    ensures Apply(p, Apply(q, mem)) == Apply(q, Apply(p, mem))
  {
    if p.isWrite && q.isWrite {
      assert Region(p, Apply(q, mem)) == Region(p, mem);
      assert Region(q, Apply(p, mem)) == Region(q, mem);
    }
  }

  // ---- replaying ------------------------------------------------------------------------------

  /** Memory after performing the listed packets in list order. */
  ghost function Replay(mem: Memory, accepted: seq<Packet>, order: seq<nat>): (r: Memory)
    requires forall i :: 0 <= i < |order| ==> order[i] < |accepted|
    ensures |r| == |mem|
  {
    if order == [] then mem
    else Apply(accepted[order[|order| - 1]], Replay(mem, accepted, order[..|order| - 1]))
  }

  /** Memory after performing, in acceptance order, those of the first n packets that are in `done`. */
  ghost function InOrder(mem: Memory, accepted: seq<Packet>, done: set<nat>, n: nat): (r: Memory)
    requires n <= |accepted|
    ensures |r| == |mem|
  {
    if n == 0 then mem
    else if n - 1 in done then Apply(accepted[n - 1], InOrder(mem, accepted, done, n - 1))
    else InOrder(mem, accepted, done, n - 1)
  }

  /** Memory after the first n packets, all performed, in acceptance order. */
  ghost function Sequential(mem: Memory, accepted: seq<Packet>, n: nat): (r: Memory)
    requires n <= |accepted|
    ensures |r| == |mem|
  {
    if n == 0 then mem else Apply(accepted[n - 1], Sequential(mem, accepted, n - 1))
  }

  /** Packet w stores to byte b when its turn comes. */
  ghost predicate Gives(mem: Memory, accepted: seq<Packet>, w: nat, b: nat)
    requires w < |accepted|
  {
    Stores(accepted[w], Sequential(mem, accepted, w)) && Covers(accepted[w], b)
  }

  /** The youngest of the first n packets that stores to byte b, n if none does. */
  ghost function Youngest(mem: Memory, accepted: seq<Packet>, n: nat, b: nat): (w: nat)
    requires n <= |accepted|
    ensures w <= n
    ensures w < n ==> Gives(mem, accepted, w, b) && forall v :: w < v < n ==> !Gives(mem, accepted, v, b)
    ensures w == n ==> forall v :: 0 <= v < n ==> !Gives(mem, accepted, v, b)
  {
    if n == 0 then 0
    else if Gives(mem, accepted, n - 1, b) then n - 1
    else
      var w := Youngest(mem, accepted, n - 1, b);
      if w == n - 1 then n else w
  }

  /** In acceptance order each byte is what the youngest store to it made of the bytes that store found,
      and what memory started with if nobody stores to it. */
  lemma {:induction false} ByteIsTheYoungestStores(mem: Memory, accepted: seq<Packet>, n: nat, b: nat)
    requires n <= |accepted| && b < |mem|
    ensures var w := Youngest(mem, accepted, n, b);
      Sequential(mem, accepted, n)[b] ==
        if w == n then mem[b] else accepted[w].effect(Region(accepted[w], Sequential(mem, accepted, w)))[b - accepted[w].addr]
  {
    if n > 0 {
      var p, before := accepted[n - 1], Sequential(mem, accepted, n - 1);
      StoreLeavesItsEffect(p, before);
      if Gives(mem, accepted, n - 1, b) {
        assert p.effect(Region(p, before))[b - p.addr] == Apply(p, before)[p.addr + (b - p.addr)];
      } else {
        ByteIsTheYoungestStores(mem, accepted, n - 1, b);
      }
    }
  }

  function Members(order: seq<nat>): set<nat> { set i | 0 <= i < |order| :: order[i] }

  // ---- the rule -------------------------------------------------------------------------------

  /** Packet w must be performed before packet s. */
  ghost predicate Precedes(accepted: seq<Packet>, w: nat, s: nat)
    requires s < |accepted|
  {
    w < s && accepted[w].isWrite && Overlap(accepted[w], accepted[s])
  }

  /** No packet twice, none unknown, and every packet after the older writes that overlap it. */
  ghost predicate RespectsOlderWrites(accepted: seq<Packet>, order: seq<nat>) {
    && (forall i :: 0 <= i < |order| ==> order[i] < |accepted|)
    && (forall i, j :: 0 <= i < j < |order| ==> order[i] != order[j])
    && (forall i, w: nat :: 0 <= i < |order| && Precedes(accepted, w, order[i]) ==> w in order[..i])
  }

  lemma RespectsPrefix(accepted: seq<Packet>, order: seq<nat>, n: nat)
    requires RespectsOlderWrites(accepted, order) && n <= |order|
    ensures RespectsOlderWrites(accepted, order[..n])
  {
    forall i, w: nat | 0 <= i < n && Precedes(accepted, w, order[..n][i]) ensures w in order[..n][..i] {
      assert order[..n][..i] == order[..i] && order[..n][i] == order[i];
    }
  }

  /** A packet that conflicts with none of the younger ones performed so far may run last. */
  lemma {:induction false} RunsLate(mem: Memory, accepted: seq<Packet>, done: set<nat>, x: nat, n: nat)
    requires x < n <= |accepted| && x !in done
    requires forall y :: x < y < n && y in done && accepted[x].isWrite && accepted[y].isWrite ==>
      !Overlap(accepted[x], accepted[y])
    ensures InOrder(mem, accepted, done + {x}, n) == Apply(accepted[x], InOrder(mem, accepted, done, n))
  {
    if n - 1 == x {
      SameBelow(mem, accepted, done, done + {x}, x);
    } else {
      RunsLate(mem, accepted, done, x, n - 1);
      if n - 1 in done {
        ApplyCommutes(accepted[x], accepted[n - 1], InOrder(mem, accepted, done, n - 1));
      }
    }
  }

  lemma {:induction false} SameBelow(mem: Memory, accepted: seq<Packet>, a: set<nat>, b: set<nat>, n: nat)
    requires n <= |accepted| && forall y :: y < n ==> (y in a <==> y in b)
    ensures InOrder(mem, accepted, a, n) == InOrder(mem, accepted, b, n)
  {
    if n > 0 { SameBelow(mem, accepted, a, b, n - 1); }
  }

  /** Any order that respects older writes leaves the memory of acceptance order. */
  lemma {:induction false} ReplayIsInOrder(mem: Memory, accepted: seq<Packet>, order: seq<nat>)
    requires RespectsOlderWrites(accepted, order)
    ensures Replay(mem, accepted, order) == InOrder(mem, accepted, Members(order), |accepted|)
    decreases |order|
  {
    if order == [] {
      assert Members(order) == {};
      NothingDone(mem, accepted, |accepted|);
    } else {
      var n := |order| - 1;
      var x, before := order[n], order[..n];
      RespectsPrefix(accepted, order, n);
      ReplayIsInOrder(mem, accepted, before);
      assert Members(order) == Members(before) + {x};
      forall y | x < y < |accepted| && y in Members(before) && accepted[x].isWrite && accepted[y].isWrite
        ensures !Overlap(accepted[x], accepted[y])
      {
        var i :| 0 <= i < n && before[i] == y;
        assert forall j :: 0 <= j < i ==> order[..i][j] == order[j] != order[n];
        assert x !in order[..i];
        assert !Precedes(accepted, x, order[i]);
      }
      RunsLate(mem, accepted, Members(before), x, |accepted|);
    }
  }

  lemma {:induction false} NothingDone(mem: Memory, accepted: seq<Packet>, n: nat)
    requires n <= |accepted|
    ensures InOrder(mem, accepted, {}, n) == mem
  {
    if n > 0 { NothingDone(mem, accepted, n - 1); }
  }

  lemma {:induction false} AllDone(mem: Memory, accepted: seq<Packet>, done: set<nat>, n: nat)
    requires n <= |accepted| && forall y :: 0 <= y < n ==> y in done
    ensures InOrder(mem, accepted, done, n) == Sequential(mem, accepted, n)
  {
    if n > 0 { AllDone(mem, accepted, done, n - 1); }
  }

  /** Once every accepted packet is performed, memory is what acceptance order would have left,
      whatever order commits let the packets run in. */
  lemma MemoryIsSequential(mem: Memory, accepted: seq<Packet>, order: seq<nat>)
    requires RespectsOlderWrites(accepted, order)
    requires forall s :: 0 <= s < |accepted| ==> s in order
    ensures Replay(mem, accepted, order) == Sequential(mem, accepted, |accepted|)
  {
    ReplayIsInOrder(mem, accepted, order);
    forall y | 0 <= y < |accepted| ensures y in Members(order) {
      assert y in order;
    }
    AllDone(mem, accepted, Members(order), |accepted|);
  }

  // ---- what a read sees -----------------------------------------------------------------------

  /** `done` contains, with a packet, the older writes that overlap it. */
  ghost predicate ClosedUnderOlderWrites(accepted: seq<Packet>, done: set<nat>) {
    forall s, w: nat :: s in done && s < |accepted| && Precedes(accepted, w, s) ==> w in done
  }

  lemma PerformedIsClosed(accepted: seq<Packet>, order: seq<nat>)
    requires RespectsOlderWrites(accepted, order)
    ensures ClosedUnderOlderWrites(accepted, Members(order))
  {
    forall s, w: nat | s in Members(order) && s < |accepted| && Precedes(accepted, w, s) ensures w in Members(order) {
      var j :| 0 <= j < |order| && order[j] == s;
      assert w in order[..j];
    }
  }

  /** If every write below n that touches byte b is done, b is as in acceptance order. */
  lemma {:induction false} ByteIsSequential(mem: Memory, accepted: seq<Packet>, done: set<nat>, n: nat, b: nat)
    requires n <= |accepted| && b < |mem| && ClosedUnderOlderWrites(accepted, done)
    requires forall w :: 0 <= w < n && accepted[w].isWrite && Covers(accepted[w], b) ==> w in done
    ensures InOrder(mem, accepted, done, n)[b] == Sequential(mem, accepted, n)[b]
  {
    if n > 0 {
      var p := accepted[n - 1];
      var partial, full := InOrder(mem, accepted, done, n - 1), Sequential(mem, accepted, n - 1);
      ByteIsSequential(mem, accepted, done, n - 1, b);
      if n - 1 in done && p.isWrite && InMemory(p, mem) && Covers(p, b) {
        forall c | p.addr <= c < p.addr + p.size ensures partial[c] == full[c] {
          forall w | 0 <= w < n - 1 && accepted[w].isWrite && Covers(accepted[w], c) ensures w in done {
            assert Precedes(accepted, w, n - 1);
          }
          ByteIsSequential(mem, accepted, done, n - 1, c);
        }
        assert Region(p, partial) == Region(p, full);
        ApplyIsLocal(p, partial, full, b);
      }
    }
  }

  lemma {:induction false} YoungerDoNotTouch(mem: Memory, accepted: seq<Packet>, done: set<nat>, r: nat, n: nat, b: nat)
    requires r <= n <= |accepted| && b < |mem|
    requires forall y :: r <= y < n && y in done && accepted[y].isWrite ==> !Covers(accepted[y], b)
    ensures InOrder(mem, accepted, done, n)[b] == InOrder(mem, accepted, done, r)[b]
  {
    if n > r { YoungerDoNotTouch(mem, accepted, done, r, n - 1, b); }
  }

  /** A younger write that overlaps r ran before r did. */
  ghost predicate Overtaken(accepted: seq<Packet>, before: seq<nat>, r: nat)
    requires r < |accepted|
  {
    exists y :: r < y < |accepted| && y in before && accepted[y].isWrite && Overlap(accepted[r], accepted[y])
  }

  /** What packet r finds in memory when it runs is what it would have found in acceptance order,
      unless a younger overlapping write overtook it. */
  lemma {:induction false} ReadIsSequential(mem: Memory, accepted: seq<Packet>, order: seq<nat>, i: nat)
    requires RespectsOlderWrites(accepted, order) && i < |order|
    requires InMemory(accepted[order[i]], mem)
    requires !Overtaken(accepted, order[..i], order[i])
    ensures RespectsOlderWrites(accepted, order[..i])
    ensures Region(accepted[order[i]], Replay(mem, accepted, order[..i]))
         == Region(accepted[order[i]], Sequential(mem, accepted, order[i]))
  {
    var r, before := order[i], order[..i];
    var p, done := accepted[r], Members(order[..i]);
    RespectsPrefix(accepted, order, i);
    ReplayIsInOrder(mem, accepted, before);
    PerformedIsClosed(accepted, before);
    forall b | p.addr <= b < p.addr + p.size
      ensures Replay(mem, accepted, before)[b] == Sequential(mem, accepted, r)[b]
    {
      YoungerLeaveIt(accepted, order, i, b);
      YoungerDoNotTouch(mem, accepted, done, r, |accepted|, b);
      OlderAreDone(accepted, order, i, b);
      ByteIsSequential(mem, accepted, done, r, b);
    }
  }

  lemma YoungerLeaveIt(accepted: seq<Packet>, order: seq<nat>, i: nat, b: nat)
    requires RespectsOlderWrites(accepted, order) && i < |order| && Covers(accepted[order[i]], b)
    requires !Overtaken(accepted, order[..i], order[i])
    ensures forall y :: order[i] <= y < |accepted| && y in Members(order[..i]) && accepted[y].isWrite ==> !Covers(accepted[y], b)
  {
    var before := order[..i];
    forall y | order[i] <= y < |accepted| && y in Members(before) && accepted[y].isWrite ensures !Covers(accepted[y], b) {
      var j :| 0 <= j < i && before[j] == y;
      assert order[j] != order[i];
      assert y in before;
      assert !Overlap(accepted[order[i]], accepted[y]);
    }
  }

  lemma OlderAreDone(accepted: seq<Packet>, order: seq<nat>, i: nat, b: nat)
    requires RespectsOlderWrites(accepted, order) && i < |order| && Covers(accepted[order[i]], b)
    ensures forall w :: 0 <= w < order[i] && accepted[w].isWrite && Covers(accepted[w], b) ==> w in Members(order[..i])
  {
    forall w | 0 <= w < order[i] && accepted[w].isWrite && Covers(accepted[w], b) ensures w in Members(order[..i]) {
      assert Precedes(accepted, w, order[i]);
      assert w in order[..i];
    }
  }

  /** Only older writes block, so a read may be overtaken, and then it can see the younger write: a
      read of one byte and a younger store to it, performed in the other order. */
  lemma OvertakenReadSeesYoungerWrite()
    ensures exists mem: Memory, accepted: seq<Packet>, order: seq<nat> ::
      && RespectsOlderWrites(accepted, order) && |order| == 2 && order[1] == 0 && !accepted[0].isWrite
      && InMemory(accepted[0], mem) && Overtaken(accepted, order[..1], 0)
      && RespectsOlderWrites(accepted, order[..1])
      && Region(accepted[0], Replay(mem, accepted, order[..1])) != Region(accepted[0], Sequential(mem, accepted, 0))
  {
    var mem: Memory := [0];
    var load, store := Packet(0, 1, false, x => x), Packet(0, 1, true, x => [1]);
    var accepted, order := [load, store], [1, 0];
    assert order[..1] == [1];
    assert !Precedes(accepted, 0, 1);
    assert RespectsOlderWrites(accepted, order);
    RespectsPrefix(accepted, order, 1);
    assert 1 in order[..1] && Overlap(accepted[0], accepted[1]);
    assert Replay(mem, accepted, []) == mem;
    assert Replay(mem, accepted, [1]) == Apply(store, Replay(mem, accepted, [1][..0]));
    assert [1][..0] == [];
    assert Apply(store, mem) == [1];
    assert Region(load, [1]) == [1] && Region(load, mem) == [0];
    assert Region(accepted[0], Replay(mem, accepted, order[..1])) != Region(accepted[0], Sequential(mem, accepted, 0));
  }
}

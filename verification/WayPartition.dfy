/** Way partitioning: which ways a core may fill, and the victim choice restricted to them.
    A 32-bit way mask is the set of the ways whose bit is one. */
module WayPartition {
  /** One `c0-c1:w0-w1` entry of the way_partition string. */
  datatype Entry = Entry(firstCore: nat, lastCore: nat, firstWay: nat, lastWay: nat)

  function AllWays(ways: nat): (all: set<nat>)
    ensures forall w :: w in all <==> 0 <= w < ways
  {
    if ways == 0 then {} else AllWays(ways - 1) + {ways - 1}
  }

  /** The ways an entry names that the cache has. */
  function Named(e: Entry, ways: nat): set<nat> {
    set w | w in AllWays(ways) && e.firstWay <= w <= e.lastWay
  }

  predicate Lists(e: Entry, core: int) { e.firstCore <= core <= e.lastCore }

  /** The last entry that lists the core, -1 if none does. */
  function LastLister(entries: seq<Entry>, core: int): (i: int)
    ensures -1 <= i < |entries|
    ensures i >= 0 ==> Lists(entries[i], core)
    ensures forall j :: i < j < |entries| ==> !Lists(entries[j], core)
  {
    var n := |entries| - 1;
    if n < 0 then -1 else if Lists(entries[n], core) then n else LastLister(entries[..n], core)
  }

  /** The ways some entry names. */
  function Claimed(entries: seq<Entry>, ways: nat): (claimed: set<nat>)
    ensures forall i :: 0 <= i < |entries| ==> Named(entries[i], ways) <= claimed
    ensures forall w :: w in claimed ==> w < ways && exists i :: 0 <= i < |entries| && w in Named(entries[i], ways)
  {
    var n := |entries| - 1;
    if n < 0 then {} else Claimed(entries[..n], ways) + Named(entries[n], ways)
  }

  datatype Partition = Partition(masks: map<int, set<nat>>, shared: set<nat>, ways: nat) {
    /** allowedWays(): a negative requester is unrestricted. */
    function AllowedFor(core: int): set<nat> {
      if core < 0 || masks == map[] then AllWays(ways)
      else if core in masks then masks[core] else shared
    }
  }

  /** What the constructor makes of the entries. */
  ghost predicate Built(p: Partition, entries: seq<Entry>) {
    && (forall core :: core in p.masks <==> LastLister(entries, core) >= 0)
    && (forall core :: core in p.masks ==> p.masks[core] == Named(entries[LastLister(entries, core)], p.ways))
    && p.shared == if p.masks != map[] && Claimed(entries, p.ways) == AllWays(p.ways)
                   then AllWays(p.ways) else AllWays(p.ways) - Claimed(entries, p.ways)
  }

  method MaskOf(e: Entry, ways: nat) returns (mask: set<nat>)
    ensures mask == Named(e, ways)
  {
    mask := {};
    var w := e.firstWay;
    while w <= e.lastWay && w < ways
      invariant e.firstWay <= w
      invariant mask == set v | v in AllWays(ways) && e.firstWay <= v <= e.lastWay && v < w
      decreases ways - w
    {
      mask := mask + {w};
      w := w + 1;
    }
  }

  /** `m_way_mask[core] = mask` for every core of one entry. */
  method AssignCores(masks: map<int, set<nat>>, e: Entry, mask: set<nat>) returns (r: map<int, set<nat>>)
    ensures forall c :: c in r <==> c in masks || Lists(e, c)
    ensures forall c :: c in r ==> r[c] == if Lists(e, c) then mask else masks[c]
  {
    r := masks;
    var core := e.firstCore;
    while core <= e.lastCore
      invariant e.firstCore <= core
      invariant forall c :: c in r <==> c in masks || (Lists(e, c) && c < core)
      invariant forall c :: c in r ==> r[c] == if Lists(e, c) && c < core then mask else masks[c]
      decreases e.lastCore + 1 - core
    {
      r := r[core := mask];
      core := core + 1;
    }
  }

  /** The constructor's loop over the entries. A later entry for a core replaces an earlier one;
      the ways of both stay claimed. */
  method BuildPartition(entries: seq<Entry>, ways: nat) returns (p: Partition)
    ensures p.ways == ways && Built(p, entries)
  {
    var masks: map<int, set<nat>> := map[];
    var shared := AllWays(ways);
    var n := 0;
    while n < |entries|
      invariant n <= |entries|
      invariant forall core :: core in masks <==> LastLister(entries[..n], core) >= 0
      invariant forall core :: core in masks ==> masks[core] == Named(entries[LastLister(entries[..n], core)], ways)
      invariant shared == AllWays(ways) - Claimed(entries[..n], ways)
    {
      var mask := MaskOf(entries[n], ways);
      masks := AssignCores(masks, entries[n], mask);
      shared := shared - mask;
      assert entries[..n + 1][..n] == entries[..n];
      n := n + 1;
    }
    assert entries[..n] == entries;
    if masks != map[] && shared == {} { shared := AllWays(ways); }
    p := Partition(masks, shared, ways);
  }

  /** A listed core may fill exactly the ways its last entry names. */
  lemma ListedCoreFillsItsWays(p: Partition, entries: seq<Entry>, core: nat, way: nat)
    requires Built(p, entries) && LastLister(entries, core) >= 0
    ensures var e := entries[LastLister(entries, core)];
      way in p.AllowedFor(core) <==> way < p.ways && e.firstWay <= way <= e.lastWay
  {
    assert core in p.masks;
  }

  /** A negative requester, and everyone in a cache no entry partitions, may fill every way. */
  lemma OthersFillAllWays(p: Partition, entries: seq<Entry>, core: int, way: nat)
    requires Built(p, entries) && (core < 0 || forall c :: LastLister(entries, c) < 0)
    ensures way in p.AllowedFor(core) <==> way < p.ways
  {
    if core >= 0 {
      forall c ensures c !in p.masks { assert LastLister(entries, c) < 0; }
      assert p.masks == map[];
    }
  }

  /** The isolation promise of the partition: a core no entry lists stays off every claimed way,
      unless the entries claim all ways. */
  lemma UnlistedCoreAvoidsClaimedWays(p: Partition, entries: seq<Entry>, core: nat)
    requires Built(p, entries) && p.masks != map[] && LastLister(entries, core) < 0
    ensures p.AllowedFor(core) !! Claimed(entries, p.ways) <==>
      Claimed(entries, p.ways) != AllWays(p.ways) || p.ways == 0
    ensures forall w :: w in p.AllowedFor(core) <==>
      w in AllWays(p.ways) && (Claimed(entries, p.ways) == AllWays(p.ways) || w !in Claimed(entries, p.ways))
  {
    if Claimed(entries, p.ways) == AllWays(p.ways) && p.ways > 0 {
      assert 0 in p.AllowedFor(core) && 0 in Claimed(entries, p.ways);
    }
  }

  /** Entries that name no way in common. */
  predicate Disjoint(e: Entry, f: Entry) {
    e.lastWay < f.firstWay || f.lastWay < e.firstWay || e.lastWay < e.firstWay || f.lastWay < f.firstWay
  }

  /** Cores listed last by such entries share no way. */
  lemma DisjointEntriesShareNoWay(p: Partition, entries: seq<Entry>, c: nat, d: nat)
    requires Built(p, entries) && LastLister(entries, c) >= 0 && LastLister(entries, d) >= 0
    requires Disjoint(entries[LastLister(entries, c)], entries[LastLister(entries, d)])
    ensures p.AllowedFor(c) !! p.AllowedFor(d)
  {
    forall w: nat | w in p.AllowedFor(c) ensures w !in p.AllowedFor(d) {
      ListedCoreFillsItsWays(p, entries, c, w);
      ListedCoreFillsItsWays(p, entries, d, w);
    }
  }

  /** ReplacementPolicy::getReplacementCandidate(set, way, allowed): the unrestricted choice if it
      is allowed, else the lowest allowed way; with no allowed way the unrestricted choice stands. */
  method DefaultCandidate(unrestricted: nat, ways: nat, allowed: set<nat>) returns (way: nat)
    requires unrestricted < ways
    ensures way < ways
    ensures unrestricted in allowed ==> way == unrestricted
    ensures allowed * AllWays(ways) != {} ==> way in allowed
    ensures unrestricted !in allowed ==> forall w :: 0 <= w < way ==> w !in allowed || way == unrestricted
    ensures allowed * AllWays(ways) == {} ==> way == unrestricted
  {
    way := unrestricted;
    if way in allowed { return; }
    var i := 0;
    while i < ways
      invariant i <= ways
      invariant forall w :: 0 <= w < i ==> w !in allowed
    {
      if i in allowed {
        assert i in allowed * AllWays(ways);
        way := i;
        return;
      }
      i := i + 1;
    }
    assert allowed * AllWays(ways) == {};
  }

  /** A way the policy never stamped counts as stamp 0. */
  function Stamp(stamps: seq<nat>, way: nat): nat { if way < |stamps| then stamps[way] else 0 }

  /** LeastRecentlyUsed's unrestricted choice: the lowest stamped way with the least stamp, way 0 if
      none was stamped. */
  method LruUnrestricted(stamps: seq<nat>) returns (way: nat)
    ensures way < |stamps| || way == 0
    ensures forall w :: 0 <= w < |stamps| ==> stamps[way] < stamps[w] || (stamps[way] == stamps[w] && way <= w)
  {
    way := 0;
    var i := 1;
    while i < |stamps|
      invariant way < i && (way == 0 || way < |stamps|)
      invariant forall w :: 0 <= w < i && w < |stamps| ==> stamps[way] < stamps[w] || (stamps[way] == stamps[w] && way <= w)
    {
      if stamps[way] > stamps[i] { way := i; }
      i := i + 1;
    }
  }

  /** LeastRecentlyUsed's restricted choice: an allowed way with the least stamp, the lowest such; with
      no allowed way the unrestricted choice. */
  method LruCandidate(stamps: seq<nat>, ways: nat, allowed: set<nat>) returns (way: nat)
    ensures allowed * AllWays(ways) != {} ==> way in allowed && way < ways
    ensures allowed * AllWays(ways) != {} ==> forall w :: 0 <= w < ways && w in allowed ==>
      Stamp(stamps, way) < Stamp(stamps, w) || (Stamp(stamps, way) == Stamp(stamps, w) && way <= w)
    ensures allowed * AllWays(ways) == {} ==> (way < |stamps| || way == 0) && forall w :: 0 <= w < |stamps| ==>
      stamps[way] < stamps[w] || (stamps[way] == stamps[w] && way <= w)
  {
    var best, least := -1, 0;
    for i := 0 to ways
      invariant -1 <= best < i
      invariant best < 0 ==> forall w :: 0 <= w < i ==> w !in allowed
      invariant best >= 0 ==> best in allowed && least == Stamp(stamps, best)
      invariant best >= 0 ==> forall w :: 0 <= w < i && w in allowed ==>
        Stamp(stamps, best) < Stamp(stamps, w) || (Stamp(stamps, best) == Stamp(stamps, w) && best <= w)
    {
      if i in allowed {
        var stamp := Stamp(stamps, i);
        if best < 0 || stamp < least { best, least := i, stamp; }
      }
    }
    if best >= 0 {
      assert best in allowed * AllWays(ways);
      return best;
    }
    assert allowed * AllWays(ways) == {};
    way := LruUnrestricted(stamps);
  }
}

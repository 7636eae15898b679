/** What the operations of a cache store do to the places of blocks, seen from one operation to the
    next: where lines are filled, who is evicted for whom, and what that means over whole runs. */
module CacheHistory {
  import opened Wrappers
  import opened WayPartition
  import opened Geometry
  import opened CacheMap

  /** The store between two operations: its registers, and every eviction so far, oldest first. */
  datatype Snapshot = Snapshot(model: Storage, evicted: seq<nat>)

  /** Quiet: no line enters or changes a way. Fill: the block goes to a way of its requester's, and
      `victim`, if there is one, to the write-back buffer. Stranded: a fill for a core with no way at
      all fails, possibly after an eviction. Load: a block is put in a free way outside the
      partition. */
  datatype Op = Quiet | Fill(block: nat, core: int, victim: Option<nat>) | Stranded(victim: Option<nat>) | Load(block: nat)

  ghost predicate SameCache(s: Snapshot, t: Snapshot) { t.model.g == s.model.g && t.model.p == s.model.p }

  /** Blocks may leave, and change or enter registers; what is in a way was there. */
  ghost predicate WaysKept(s: Snapshot, t: Snapshot) {
    forall b :: b in t.model.place && t.model.place[b].Slot? ==> b in s.model.place && s.model.place[b] == t.model.place[b]
  }

  ghost predicate QuietStep(s: Snapshot, t: Snapshot) {
    SameCache(s, t) && t.evicted == s.evicted && t.model.filler == s.model.filler && WaysKept(s, t)
  }

  /** The line in way w of the block's set went to the write-back buffer, and the block took its
      way. */
  ghost predicate EvictedFor(s: Snapshot, t: Snapshot, core: int, b: nat, w: nat, v: nat) {
    && SameCache(s, t) && t.evicted == s.evicted + [v] && t.model.filler == s.model.filler[b := core]
    && v != b && v in s.model.place && s.model.place[v] == Slot(s.model.g.SetOf(b), w) && w in s.model.p.AllowedFor(core)
    && t.model.place == s.model.place[v := Pwb(v)][b := Slot(s.model.g.SetOf(b), w)]
  }

  /** The newest eviction was for this block, out of way w. */
  ghost predicate MadeWay(s: Snapshot, t: Snapshot, core: int, b: nat, w: nat) {
    |t.evicted| > |s.evicted| && EvictedFor(s, t, core, b, w, t.evicted[|s.evicted|])
  }

  /** The block took a free way. */
  ghost predicate FilledFree(s: Snapshot, t: Snapshot, core: int, b: nat) {
    && SameCache(s, t) && t.evicted == s.evicted && t.model.filler == s.model.filler[b := core]
    && exists w :: w in s.model.p.AllowedFor(core) && t.model.place == s.model.place[b := Slot(s.model.g.SetOf(b), w)]
  }

  /** The fallback victim of a fill that fails, if its way held a line, is in the write-back buffer. */
  ghost predicate StrandedStep(s: Snapshot, t: Snapshot, victim: Option<nat>) {
    && SameCache(s, t) && t.model.filler == s.model.filler
    && match victim
       case None => t.evicted == s.evicted && t.model.place == s.model.place
       case Some(v) =>
         && t.evicted == s.evicted + [v] && v in s.model.place && s.model.place[v].Slot?
         && t.model.place == s.model.place[v := Pwb(v)]
  }

  ghost predicate Step(s: Snapshot, op: Op, t: Snapshot) {
    match op
    case Quiet => QuietStep(s, t)
    case Fill(b, core, Some(v)) => exists w :: EvictedFor(s, t, core, b, w, v)
    case Fill(b, core, None) => FilledFree(s, t, core, b)
    case Stranded(victim) => StrandedStep(s, t, victim)
    case Load(b) =>
      && SameCache(s, t) && t.evicted == s.evicted && t.model.filler == s.model.filler[b := -1]
      && exists w :: t.model.place == s.model.place[b := Slot(s.model.g.SetOf(b), w)]
  }

  function Newly(s: Snapshot, t: Snapshot): Option<nat> {
    if |t.evicted| > |s.evicted| then Some(t.evicted[|s.evicted|]) else None
  }

  /** Which of them an update of this block's data for this core was, read off what changed. */
  function DataOp(s: Snapshot, t: Snapshot, core: int, b: nat): Op {
    if !(b in s.model.place && s.model.place[b].Mshr?) then Quiet
    else if b in t.model.place && t.model.place[b].Slot? then Fill(b, core, Newly(s, t))
    else Stranded(Newly(s, t))
  }

  /** A step sees places, requesters and evictions only. */
  lemma SameStep(s: Snapshot, u: Snapshot, op: Op, t: Snapshot)
    requires SameCache(s, u) && u.evicted == s.evicted && u.model.filler == s.model.filler && u.model.place == s.model.place
    ensures Step(u, op, t) ==> Step(s, op, t)
    ensures forall core, b :: DataOp(u, t, core, b) == DataOp(s, t, core, b)
    ensures forall core, b, w :: MadeWay(u, t, core, b, w) ==> MadeWay(s, t, core, b, w)
  {
    if Step(u, op, t) && op.Fill? && op.victim.Some? {
      var w :| EvictedFor(u, t, op.core, op.block, w, op.victim.value);
      assert EvictedFor(s, t, op.core, op.block, w, op.victim.value);
    }
  }

  // ---- runs ---------------------------------------------------------------------------------------

  /** A run of store operations from an empty store. */
  ghost predicate Run(states: seq<Snapshot>, ops: seq<Op>) {
    && |states| == |ops| + 1
    && states[0].model.place == map[] && states[0].model.filler == map[] && states[0].evicted == []
    && forall i {:trigger ops[i]} :: 0 <= i < |ops| ==> Step(states[i], ops[i], states[i + 1])
  }

  /** The core of the last fill of a block. */
  function LastFill(ops: seq<Op>, b: nat): Option<int> {
    if ops == [] then None
    else
      var filled := FilledFor(ops[|ops| - 1], b);
      if filled.Some? then filled else LastFill(ops[..|ops| - 1], b)
  }

  /** The evictions of a run, in order. */
  function Victims(ops: seq<Op>): seq<nat> {
    if ops == [] then [] else Victims(ops[..|ops| - 1]) + VictimOf(ops[|ops| - 1])
  }

  lemma {:induction false} RunRecords(states: seq<Snapshot>, ops: seq<Op>, n: nat, b: nat)
    requires Run(states, ops) && n <= |ops|
    ensures SameCache(states[0], states[n]) && states[n].evicted == Victims(ops[..n])
    ensures LastFill(ops[..n], b) == if b in states[n].model.filler then Some(states[n].model.filler[b]) else None
    decreases n
  {
    if n > 0 {
      RunRecords(states, ops, n - 1, b);
      assert ops[..n][..n - 1] == ops[..n - 1] && ops[..n][n - 1] == ops[n - 1];
      assert Step(states[n - 1], ops[n - 1], states[n]);
      StepRecords(states[n - 1], ops[n - 1], states[n], b);
    }
  }

  /** The victim of an operation, and the core it fills a block for. */
  function VictimOf(op: Op): seq<nat> { if (op.Fill? || op.Stranded?) && op.victim.Some? then [op.victim.value] else [] }

  function FilledFor(op: Op, b: nat): Option<int> {
    if op.Fill? && op.block == b then Some(op.core) else if op.Load? && op.block == b then Some(-1) else None
  }

  lemma {:induction false} StepRecords(s: Snapshot, op: Op, t: Snapshot, b: nat)
    requires Step(s, op, t)
    ensures SameCache(s, t) && t.evicted == s.evicted + VictimOf(op)
    ensures if FilledFor(op, b).Some? then b in t.model.filler && t.model.filler[b] == FilledFor(op, b).value
            else (b in t.model.filler <==> b in s.model.filler) && (b in t.model.filler ==> t.model.filler[b] == s.model.filler[b])
  {
  }

  /** Way-partition isolation: over every run, a fill for core c evicts only blocks whose last fill was
      for a core that shares a way with c. So cores with disjoint masks never evict each other. */
  lemma {:induction false} FillsEvictSharers(states: seq<Snapshot>, ops: seq<Op>, i: nat)
    requires Run(states, ops) && i < |ops| && ops[i].Fill? && ops[i].victim.Some?
    ensures var d := LastFill(ops[..i], ops[i].victim.value);
      var p := states[0].model.p;
      d.Some? && !(p.AllowedFor(ops[i].core) !! p.AllowedFor(d.value))
  {
    var v := ops[i].victim.value;
    RunRecords(states, ops, i, v);
    assert Step(states[i], ops[i], states[i + 1]);
    VictimSharesAWay(states[i].model, ops[i].core, v);
  }

  /** A line in a way stays there, through any operation that is not for its own block, as long as no
      core that shares a way with the core it was filled for makes room by evicting it: an operation
      for a core with a disjoint mask leaves it where it is. */
  lemma {:induction false} DisjointFillLeavesTheLine(states: seq<Snapshot>, ops: seq<Op>, i: nat, b: nat)
    requires Run(states, ops) && i < |ops| && ops[i].Fill? && ops[i].block != b
    requires b in states[i].model.place && states[i].model.place[b].Slot?
    requires var d := LastFill(ops[..i], b);
      var p := states[0].model.p;
      d.Some? ==> p.AllowedFor(ops[i].core) !! p.AllowedFor(d.value)
    ensures b in states[i + 1].model.place && states[i + 1].model.place[b] == states[i].model.place[b]
  {
    assert Step(states[i], ops[i], states[i + 1]);
    if ops[i].victim == Some(b) { FillsEvictSharers(states, ops, i); }
  }

  /** The same in the words of the configuration: cores listed last by entries that name no way in common
      never evict each other. */
  lemma {:induction false} ListedApartNeverEvict(states: seq<Snapshot>, ops: seq<Op>, i: nat, entries: seq<Entry>)
    requires Run(states, ops) && i < |ops| && ops[i].Fill? && ops[i].victim.Some? && Built(states[0].model.p, entries)
    ensures var d := LastFill(ops[..i], ops[i].victim.value);
      && d.Some?
      && !(&& ops[i].core >= 0 && d.value >= 0 && LastLister(entries, ops[i].core) >= 0 && LastLister(entries, d.value) >= 0
           && Disjoint(entries[LastLister(entries, ops[i].core)], entries[LastLister(entries, d.value)]))
  {
    FillsEvictSharers(states, ops, i);
    var c, d := ops[i].core, LastFill(ops[..i], ops[i].victim.value).value;
    if c >= 0 && d >= 0 && LastLister(entries, c) >= 0 && LastLister(entries, d) >= 0
      && Disjoint(entries[LastLister(entries, c)], entries[LastLister(entries, d)])
    {
      DisjointEntriesShareNoWay(states[0].model.p, entries, c, d);
    }
  }
}

/** The storage of one cache: the set/way array, the miss status holding registers (MSHR) and the
    write-back buffer (PWB), together with the queue of evictions whose write-back has not been
    issued (CacheDataHandler and CacheDataHandler_COTS).

    Whatever the three hold, `contents` is one plain map from block address to content; `Valid`
    ties it to the registers through the cells of CacheMap. Every operation below is stated as an
    update of that map, so an eviction, which leaves the map alone, is invisible in it. */
module CacheStore {
  import opened Wrappers
  import opened CacheLine
  import opened WayPartition
  import opened Geometry
  import opened CacheMap
  import opened CacheHistory

  /** modifyData's answers. `Unallocated` is its "Error modifying unallocated line" exit, `NoRoom` the
      "cache doesn't fit the data" exit of initialize. `Overran`: the copy went on past the end of the
      line, into memory that is not the store's. */
  datatype ModifyOutcome = Modified | Overran | Refused | Unallocated | NoRoom
  {
    predicate Wrote() { Modified? || Overran? }
  }

  class Store {
    const g: Geometry
    const partition: Partition
    const latency: nat
    const pipelined: bool
    const pwbSize: int            // -1: unbounded
    const lines: array2<Line>

    var mshr: map<nat, Line>
    var pwb: map<nat, Line>
    var pendingIssue: seq<nat>
    var requester: int
    var cycle: nat
    var readyCycle: nat

    ghost var model: Storage            // the three register files, and the map they stand for
    ghost var evicted: seq<nat>         // every eviction so far, oldest first
    ghost var issued: seq<nat>          // every write-back issued so far, oldest first

    /** The line in a cell, as the registers have it. */
    ghost function Held(c: Cell): Option<Line>
      reads this`mshr, this`pwb, lines
    {
      match c
      case Slot(s, w) =>
        if s < lines.Length0 && w < lines.Length1 && lines[s, w].valid then Some(lines[s, w]) else None
      case Mshr(b) => if b in mshr then Some(mshr[b]) else None
      case Pwb(b) => if b in pwb then Some(pwb[b]) else None
    }

    ghost predicate Shape()
      reads this`model, this`pendingIssue, this`evicted, this`issued
    {
      && lines.Length0 == g.SetCount() && lines.Length1 == partition.ways
      && model.g == g && model.p == partition
      && evicted == issued + pendingIssue
    }

    /** The registers hold in this cell what the model has there. */
    ghost predicate Mirrored(c: Cell)
      reads this`model, this`mshr, this`pwb, lines
    {
      Held(c) == if c in model.cells then Some(model.cells[c]) else None
    }

    ghost predicate Placed()
      reads this`model, this`pendingIssue, this`evicted, this`issued, this`mshr, this`pwb, lines
    {
      Shape() && forall c :: Mirrored(c)
    }

    ghost predicate Valid()
      reads this`model, this`pendingIssue, this`evicted, this`issued, this`mshr, this`pwb, lines
    {
      Placed() && forall c :: c in model.cells ==> model.cells[c].valid
    }

    /** What the store holds for the outside: a map from block address to content. */
    ghost function Contents(): map<nat, Content> reads this`model { model.contents }

    /** Where each block is. */
    ghost function Place(): map<nat, Cell> reads this`model { model.place }

    ghost function Snap(): Snapshot reads this`model, this`evicted { Snapshot(model, evicted) }

    ghost predicate ArrayReady() reads this`readyCycle, this`cycle { pipelined || readyCycle <= cycle }

    ghost function AccessEnd(): nat reads this`readyCycle, this`cycle { if pipelined then readyCycle else cycle + latency }

    /** The ways of the cache a core may fill. */
    ghost function WaysOf(core: int): set<nat> {
      partition.AllowedFor(core) * AllWays(partition.ways)
    }

    ghost function Allowed(): set<nat> reads this`requester { WaysOf(requester) }

    /** No way of the set that the core may fill is free. */
    ghost predicate SetFullFor(core: int, s: nat)
      requires s < lines.Length0 && lines.Length1 == partition.ways
      reads lines
    {
      forall w :: w in WaysOf(core) ==> lines[s, w].valid
    }

    ghost predicate SetFull(s: nat)
      requires s < lines.Length0 && lines.Length1 == partition.ways
      reads this`requester, lines
    {
      SetFullFor(requester, s)
    }

    ghost predicate PwbFull() reads this`pwb { pwbSize >= 0 && |pwb| >= pwbSize }

    ghost predicate InArray(b: nat) reads this`model { b in Place() && Place()[b].Slot? }

    ghost predicate InRegister(b: nat) reads this`model { b in Place() && !Place()[b].Slot? }

    constructor (g: Geometry, partition: Partition, latency: nat, pipelined: bool, pwbSize: int)
      ensures Valid() && fresh(lines)
      ensures Contents() == map[] && evicted == [] && requester == -1
      ensures this.g == g && this.partition == partition
    {
      this.g, this.partition := g, partition;
      this.latency, this.pipelined, this.pwbSize := latency, pipelined, pwbSize;
      lines := new Line[g.SetCount(), partition.ways]((s, w) => Blank());
      mshr, pwb, pendingIssue := map[], map[], [];
      requester, cycle, readyCycle := -1, 0, 0;
      model, evicted, issued := Model(g, partition, map[], map[], map[], map[]), [], [];
    }

    method SetRequester(core: int)
      requires Valid()
      modifies this`requester
      ensures Valid() && requester == core
    {
      requester := core;
    }

    method UpdateCycle(now: nat)
      requires Valid()
      modifies this`cycle
      ensures Valid() && cycle == now
    {
      cycle := now;
    }

    // ---- search -------------------------------------------------------------------------------

    /** A valid line of set SetOf(a) carries a's tag exactly when it is a's block. */
    lemma TagNamesBlock(address: nat, way: nat)
      requires Placed() && way < partition.ways
      ensures lines[g.SetOf(address), way].valid && lines[g.SetOf(address), way].tag == g.Tag(address)
        <==> g.Block(address) in Place() && Place()[g.Block(address)] == Slot(g.SetOf(address), way)
    {
      var s, b := g.SetOf(address), g.Block(address);
      var c := Slot(s, way);
      assert Mirrored(c);
      if c in model.cells { assert Owned(model, c); }
      if b in Place() { assert Housed(model, b); }
      AddressOfTagAndSet(g, address);
      if lines[s, way].valid {
        TagAndSetOfAddress(g, lines[s, way].tag, s);
        BlockKeepsTagAndSet(g, address);
      }
    }

    /** CacheDataHandler::findline. */
    method FindInArray(address: nat) returns (found: bool, s: nat, way: nat)
      requires Placed()
      ensures s == g.SetOf(address)
      ensures found <==> InArray(g.Block(address))
      ensures found ==> way < partition.ways && Place()[g.Block(address)] == Slot(s, way)
    {
      s, way := g.SetOf(address), 0;
      BlockKeepsTagAndSet(g, address);
      if g.Block(address) in Place() { assert Housed(model, g.Block(address)); }
      while way < partition.ways
        invariant way <= partition.ways
        invariant forall w :: 0 <= w < way ==>
          !(g.Block(address) in Place() && Place()[g.Block(address)] == Slot(s, w))
      {
        TagNamesBlock(address, way);
        if lines[s, way].valid && lines[s, way].tag == g.Tag(address) { return true, s, way; }
        way := way + 1;
      }
      found := false;
    }

    /** CacheDataHandler_COTS::findline: a block in a side buffer is reported with way -1 and its
        block address in Place() of the set index. */
    method FindLine(address: nat) returns (found: bool, s: nat, way: int)
      requires Placed()
      ensures found <==> g.Block(address) in Contents()
      ensures found && way >= 0 ==> way < partition.ways && Place()[g.Block(address)] == Slot(s, way)
      ensures found && way < 0 ==> s == g.Block(address) && InRegister(s)
      ensures found && way < 0 ==> Place()[s] == if s in mshr then Mshr(s) else Pwb(s)
      ensures found && way < 0 ==> s in mshr || s in pwb
    {
      found, s, way := FindInArray(address);
      if found { return; }
      way := -1;
      s := g.Block(address);
      RegistersNamePlace(s);
      found := s in mshr || s in pwb;
    }

    lemma RegistersNamePlace(b: nat)
      requires Placed()
      ensures b in mshr <==> b in Place() && Place()[b] == Mshr(b)
      ensures b in pwb <==> b in Place() && Place()[b] == Pwb(b)
      ensures b in Place() && !Place()[b].Slot? ==> Place()[b] == Mshr(b) || Place()[b] == Pwb(b)
      ensures b in Place() ==> Place()[b] in model.cells && Held(Place()[b]) == Some(model.cells[Place()[b]])
      ensures b in Place() ==> Housed(model, b) && Owned(model, Place()[b])
      ensures b in Place() && Place()[b].Slot? ==> Place()[b].set_ < lines.Length0 && Place()[b].way < lines.Length1
    {
      assert Mirrored(Mshr(b)) && Mirrored(Pwb(b));
      if b in Place() { assert Mirrored(Place()[b]) && Housed(model, b) && Owned(model, Place()[b]); }
      if b in mshr { assert Owned(model, Mshr(b)); }
      if b in pwb { assert Owned(model, Pwb(b)); }
    }

    /** CacheDataHandler_COTS::lineLocation. */
    method LineLocation(address: nat) returns (location: Option<Cell>)
      requires Placed()
      ensures location == if g.Block(address) in Place() then Some(Place()[g.Block(address)]) else None
    {
      var found, s, way := FindInArray(address);
      var b := g.Block(address);
      RegistersNamePlace(b);
      if found { return Some(Slot(s, way)); }
      if b in mshr { return Some(Mshr(b)); }
      if b in pwb { return Some(Pwb(b)); }
      location := None;
    }

    /** CacheDataHandler_COTS::isReady(address): the port timer does not close a side buffer. */
    method IsReady(address: nat) returns (ready: bool)
      requires Placed()
      ensures ready <==> InRegister(g.Block(address)) || ArrayReady()
      ensures ready <==> InRegister(g.Block(address)) || pipelined || readyCycle <= cycle
    {
      var b := g.Block(address);
      RegistersNamePlace(b);
      ready := b in mshr || b in pwb || pipelined || readyCycle <= cycle;
    }

    /** The cell getLine(set, way) points at. */
    ghost function CellAt(s: nat, way: int): Cell
      reads this`mshr
    {
      if way >= 0 then Slot(s, way) else if s in mshr then Mshr(s) else Pwb(s)
    }

    ghost predicate Addressable(s: nat, way: int)
      reads this`mshr, this`pwb
    {
      if way >= 0 then s < lines.Length0 && way < lines.Length1 else s in mshr || s in pwb
    }

    method GetLine(s: nat, way: int) returns (line: Line)
      requires Addressable(s, way)
      ensures line == if way >= 0 then lines[s, way] else if s in mshr then mshr[s] else pwb[s]
    {
      if way >= 0 { line := lines[s, way]; }
      else if s in mshr { line := mshr[s]; }
      else { line := pwb[s]; }
    }

    /** A write through what getLine returns. */
    method PutLine(s: nat, way: int, line: Line)
      requires Addressable(s, way)
      modifies this`mshr, this`pwb, lines
      ensures mshr.Keys == old(mshr.Keys) && pwb.Keys == old(pwb.Keys)
      ensures forall i, j :: 0 <= i < lines.Length0 && 0 <= j < lines.Length1 ==>
        lines[i, j] == if way >= 0 && i == s && j == way then line else old(lines[i, j])
      ensures forall c :: c != old(CellAt(s, way)) ==> Held(c) == old(Held(c))
      ensures Held(old(CellAt(s, way))) == if way >= 0 && !line.valid then None else Some(line)
    {
      if way >= 0 { lines[s, way] := line; }
      else if s in mshr { mshr := mshr[s := line]; }
      else { pwb := pwb[s := line]; }
    }

    /** The lowest free way the requester may fill, -1 if there is none. */
    method FindEmptyWay(address: nat) returns (way: int)
      requires Shape()
      ensures way == -1 <==> SetFull(g.SetOf(address))
      ensures -1 <= way < partition.ways
      ensures way >= 0 ==> way in Allowed() && !lines[g.SetOf(address), way].valid
      ensures way >= 0 ==> forall w :: w in Allowed() && w < way ==> lines[g.SetOf(address), w].valid
    {
      var s := g.SetOf(address);
      var allowed := partition.AllowedFor(requester);
      way := 0;
      while way < partition.ways
        invariant 0 <= way <= partition.ways
        invariant forall w :: w in Allowed() && w < way ==> lines[s, w].valid
      {
        if way in allowed && !lines[s, way].valid { return; }
        way := way + 1;
      }
      way := -1;
    }

    // ---- updates ------------------------------------------------------------------------------

    /** Replaces the line of a tracked block where it sits. */
    method StoreAt(ghost b: nat, s: nat, way: int, line: Line)
      requires Placed() && b in Place() && Addressable(s, way) && Place()[b] == CellAt(s, way)
      requires way >= 0 ==> line.valid
      requires Tagged(Place()[b], line) && BlockIn(g, Place()[b], line) == b && GoodData(g, View(line))
      modifies this`mshr, this`pwb, this`model, lines
      ensures Placed()
      ensures Addressable(s, way)
      ensures forall i, j :: 0 <= i < lines.Length0 && 0 <= j < lines.Length1 ==> lines[i, j].valid == old(lines[i, j].valid)
      ensures model == old(Rewrite(model, b, line))
      ensures mshr.Keys == old(mshr.Keys) && pwb.Keys == old(pwb.Keys)
    {
      RegistersNamePlace(b);
      model := Rewrite(model, b, line);
      PutLine(s, way, line);
      forall c ensures Mirrored(c) { assert old(Mirrored(c)); }
    }

    /** The line of a slot loses its valid bit; its block leaves the store. */
    method FreeSlot(ghost b: nat, s: nat, way: nat, line: Line)
      requires Placed() && b in Place() && Place()[b] == Slot(s, way)
      requires !line.valid
      modifies this`mshr, this`pwb, this`model, lines
      ensures Placed()
      ensures model == old(Drop(model, b))
      ensures mshr.Keys == old(mshr.Keys) && pwb.Keys == old(pwb.Keys)
    {
      RegistersNamePlace(b);
      model := Drop(model, b);
      PutLine(s, way, line);
      forall c ensures Mirrored(c) { assert old(Mirrored(c)); }
    }

    /** A side buffer releases the entry of a block. */
    method Release(b: nat)
      requires Placed() && InRegister(b)
      modifies this`mshr, this`pwb, this`model
      ensures Placed()
      ensures model == old(Drop(model, b))
      ensures mshr == old(mshr) - {b} && pwb == old(pwb) - {b}
    {
      RegistersNamePlace(b);
      model := Drop(model, b);
      if b in mshr { mshr := mshr - {b}; } else { pwb := pwb - {b}; }
      forall c ensures Mirrored(c) { assert old(Mirrored(c)); }
    }

    /** updateLineBits: the addressed block gets the new bits, or, if they mark it invalid, it and
        nothing else leaves the store. */
    method UpdateLineBits(address: nat, line: Line) returns (found: bool)
      requires Valid()
      modifies this`mshr, this`pwb, this`model, lines
      ensures Valid()
      ensures found <==> g.Block(address) in old(Contents())
      ensures Contents() == if !found then old(Contents())
                            else if line.valid then old(Contents())[g.Block(address) := Content(line.bits, old(Contents())[g.Block(address)].data)]
                            else old(Contents()) - {g.Block(address)}
      ensures Place() == if found && !line.valid then old(Place()) - {g.Block(address)} else old(Place())
      ensures QuietStep(old(Snap()), Snap())
      ensures line.valid ==> mshr.Keys == old(mshr.Keys) && pwb.Keys == old(pwb.Keys)
      ensures line.valid ==> forall i, j :: 0 <= i < lines.Length0 && 0 <= j < lines.Length1 ==>
        lines[i, j].valid == old(lines[i, j].valid)
    {
      var b := g.Block(address);
      var s, way;
      found, s, way := FindLine(address);
      if found {
        RegistersNamePlace(b);
        var target := GetLine(s, way);
        if way >= 0 && !line.valid {
          FreeSlot(b, s, way, CopyBits(target, line));
        } else {
          StoreAt(b, s, way, CopyBits(target, line));
        }
      }
      var tracked, s', way' := FindLine(address);
      if tracked && way' < 0 && !line.valid { Release(s'); }
    }

    /** writeLine2MSHR: a line that is not valid opens no entry; one for a block that has an entry is
        copied over it. For a block that has its home elsewhere the registers would stand for no map
        (CacheMap.OneCellPerBlock). */
    method WriteLineToMshr(address: nat, line: Line)
      requires Valid() && (g.Block(address) in Place() ==> Place()[g.Block(address)].Mshr?)
      requires GoodData(g, View(line))
      modifies this`mshr, this`model
      ensures Valid() && QuietStep(old(Snap()), Snap())
      ensures var b := g.Block(address);
        Contents() == if !line.valid then old(Contents())
                      else if b in old(Contents()) && line.data.None?
                      then old(Contents())[b := Content(line.bits, old(Contents())[b].data)] else old(Contents())[b := View(line)]
      ensures Place() == if line.valid then old(Place())[g.Block(address) := Mshr(g.Block(address))] else old(Place())
    {
      if !line.valid { return; }
      var b := g.Block(address);
      BlockKeepsTagAndSet(g, address);
      RegistersNamePlace(b);
      if b in mshr {
        model := Rewrite(model, b, CopyLine(mshr[b], line));
        mshr := mshr[b := CopyLine(mshr[b], line)];
      } else {
        assert Mirrored(Mshr(b));
        model := Add(model, b, Mshr(b), CopyLine(Blank(), line));
        mshr := mshr[b := CopyLine(Blank(), line)];
      }
      forall c ensures Mirrored(c) { assert old(Mirrored(c)); }
    }

    /** moveLine2WB: the victim's line moves to the write-back buffer and its write-back is queued. */
    method MoveLineToWb(ghost v: nat, s: nat, way: nat)
      requires Placed() && v in Place() && Place()[v] == Slot(s, way)
      requires s < g.SetCount() && way < partition.ways
      modifies this`pwb, this`pendingIssue, this`model, this`evicted, lines
      ensures Placed()
      ensures old(Valid()) ==> Valid()
      ensures Contents() == old(Contents()) && Place() == old(Place())[v := Pwb(v)] && model.filler == old(model.filler)
      ensures v !in old(pwb) && pwb.Keys == old(pwb.Keys) + {v}
      ensures evicted == old(evicted) + [v] && pendingIssue == old(pendingIssue) + [v]
      ensures forall w :: 0 <= w < partition.ways ==> lines[s, w].valid == (old(lines[s, w].valid) && w != way)
    {
      RegistersNamePlace(v);
      var line := lines[s, way];
      var wb := g.Address(line.tag, s);
      assert wb == v;
      if Pwb(v) in model.cells { assert Owned(model, Pwb(v)); }
      model := Relocate(model, v, Pwb(v), CopyLine(Blank(), line));
      pwb := pwb[wb := CopyLine(Blank(), line)];
      lines[s, way] := line.(valid := false);
      pendingIssue := pendingIssue + [wb];
      evicted := evicted + [v];
      forall c ensures Mirrored(c) { assert old(Mirrored(c)); }
    }

    /** writeCacheLine_bypassLatency on the array itself: the lowest free way the requester may fill
        takes a copy of the line under the address's tag. */
    method WriteSlot(address: nat, line: Line) returns (way: int)
      requires Shape() && line.valid
      modifies lines
      ensures -1 <= way < partition.ways
      ensures way == -1 <==> old(SetFull(g.SetOf(address)))
      ensures way >= 0 ==> way in Allowed() && !old(lines[g.SetOf(address), way].valid)
      ensures way >= 0 ==> forall w :: w in Allowed() && w < way ==> old(lines[g.SetOf(address), w].valid)
      ensures way >= 0 ==>
        lines[g.SetOf(address), way] == CopyLine(old(lines[g.SetOf(address), way]), line).(tag := g.Tag(address))
      ensures forall s, w :: 0 <= s < lines.Length0 && 0 <= w < lines.Length1 ==>
        (s == g.SetOf(address) && w == way) || lines[s, w] == old(lines[s, w])
    {
      var s := g.SetOf(address);
      way := FindEmptyWay(address);
      if way == -1 { return; }
      lines[s, way] := CopyLine(lines[s, way], line).(tag := g.Tag(address));
    }

    /** The second half of a fill: the MSHR entry moves into the way WriteSlot picks. */
    method Install(address: nat) returns (way: int)
      requires Valid() && g.Block(address) in mshr && mshr[g.Block(address)].data.Some?
      modifies this`mshr, this`model, lines
      ensures Valid() && Contents() == old(Contents())
      ensures -1 <= way < partition.ways
      ensures way == -1 <==> old(SetFull(g.SetOf(address)))
      ensures way == -1 ==> Place() == old(Place()) && model.filler == old(model.filler)
      ensures way >= 0 ==> way in Allowed() && !old(lines[g.SetOf(address), way].valid)
      ensures way >= 0 ==> forall w :: w in Allowed() && w < way ==> old(lines[g.SetOf(address), w].valid)
      ensures way >= 0 ==> Place() == old(Place())[g.Block(address) := Slot(g.SetOf(address), way)]
      ensures way >= 0 ==> model.filler == old(model.filler)[g.Block(address) := requester]
    {
      var s, b := g.SetOf(address), g.Block(address);
      RegistersNamePlace(b);
      way := WriteSlot(address, mshr[b]);
      if way == -1 {
        forall c ensures Mirrored(c) { assert old(Mirrored(c)); }
        return;
      }
      BlockKeepsTagAndSet(g, address);
      AddressOfTagAndSet(g, address);
      assert old(Mirrored(Slot(s, way)));
      model := Relocate(NameFiller(model, b, requester), b, Slot(s, way), lines[s, way]);
      mshr := mshr - {b};
      forall c ensures Mirrored(c) { assert old(Mirrored(c)); }
    }

    /** Installing the returning fill of this address for this core needs a victim. */
    ghost predicate FillEvictsFor(core: int, address: nat)
      reads this`mshr, lines
      requires lines.Length0 == g.SetCount() && lines.Length1 == partition.ways
    {
      g.Block(address) in mshr && SetFullFor(core, g.SetOf(address))
    }

    ghost predicate FillEvicts(address: nat)
      reads this`mshr, this`requester, lines
      requires lines.Length0 == g.SetCount() && lines.Length1 == partition.ways
    {
      FillEvictsFor(requester, address)
    }

    /** fillWouldOverflowPwb, asked before the fill. UpdateLineData says that the answer is exact. */
    method FillWouldOverflowPwb(address: nat) returns (overflow: bool)
      requires Valid()
      ensures overflow <==> PwbFull() && FillEvicts(address)
      ensures overflow <==> FillEvicts(address) && pwbSize >= 0 && |pwb| + 1 > pwbSize
    {
      if pwbSize < 0 || |pwb| < pwbSize { return false; }
      if g.Block(address) !in mshr { return false; }
      RegistersNamePlace(g.Block(address));
      var found, s, way := FindInArray(address);
      if found { return false; }
      var free := FindEmptyWay(address);
      overflow := free == -1;
    }

    /** The way the replacement policy answers if this fill needs one: any way of the cache, an
        allowed one if there is one. */
    ghost predicate PolicyChoiceFor(core: int, address: nat, victim: nat)
      requires lines.Length0 == g.SetCount() && lines.Length1 == partition.ways
      reads this`mshr, lines
    {
      FillEvictsFor(core, address) ==> victim < partition.ways && (WaysOf(core) != {} ==> victim in WaysOf(core))
    }

    ghost predicate PolicyChoice(address: nat, victim: nat)
      requires lines.Length0 == g.SetCount() && lines.Length1 == partition.ways
      reads this`mshr, this`requester, lines
    {
      PolicyChoiceFor(requester, address, victim)
    }

    /** chooseEvictionWay and moveLine2WB, run when no way is free: `victim` is the policy's answer.
        Whatever happens the map stays as it is. */
    method MakeRoom(address: nat, victim: nat)
      requires Valid() && g.Block(address) in mshr && PolicyChoice(address, victim)
      modifies this`pwb, this`pendingIssue, this`model, this`evicted, lines
      ensures Valid() && Contents() == old(Contents()) && model.filler == old(model.filler)
      ensures SetFull(g.SetOf(address)) <==> Allowed() == {}
      ensures !old(FillEvicts(address)) ==> model == old(model) && evicted == old(evicted) && pwb == old(pwb)
      ensures Allowed() != {} && old(FillEvicts(address)) ==>
        |evicted| == |old(evicted)| + 1 && evicted == old(evicted) + [evicted[|old(evicted)|]]
      ensures Allowed() != {} && old(FillEvicts(address)) ==>
        var v := evicted[|old(evicted)|];
        && v in old(Place()) && v != g.Block(address)
        && old(Place())[v] == Slot(g.SetOf(address), victim) && Place() == old(Place())[v := Pwb(v)]
      ensures Allowed() != {} && old(FillEvicts(address)) ==>
        |pwb| == |old(pwb)| + 1 && !lines[g.SetOf(address), victim].valid
      ensures Allowed() != {} && old(FillEvicts(address)) ==> forall w :: w in Allowed() && w != victim ==>
        lines[g.SetOf(address), w].valid
      ensures Allowed() == {} ==> StrandedStep(old(Snap()), Snap(), Newly(old(Snap()), Snap()))
      ensures g.Block(address) in Place() && Place()[g.Block(address)] == Mshr(g.Block(address))
    {
      var s := g.SetOf(address);
      RegistersNamePlace(g.Block(address));
      var free := FindEmptyWay(address);
      if free == -1 && lines[s, victim].valid {
        assert Mirrored(Slot(s, victim)) && Owned(model, Slot(s, victim));
        ghost var v := BlockIn(g, Slot(s, victim), lines[s, victim]);
        MoveLineToWb(v, s, victim);
        assert |pwb.Keys| == |old(pwb.Keys)| + 1;
      }
    }

    /** The MSHR branch of updateLineData once the bytes are merged. The requester's mask may be
        empty; then no way is free even after an eviction, the fill fails, and writeCacheLineData
        ends the run. */
    method InstallFill(address: nat, victim: nat) returns (ok: bool)
      requires Valid() && g.Block(address) in mshr && mshr[g.Block(address)].data.Some?
      requires PolicyChoice(address, victim)
      modifies this`mshr, this`pwb, this`pendingIssue, this`model, this`evicted, lines
      ensures Valid() && Contents() == old(Contents())
      ensures ok <==> Allowed() != {}
      ensures ok && !old(FillEvicts(address)) ==> FilledFree(old(Snap()), Snap(), requester, g.Block(address)) && pwb == old(pwb)
      ensures ok && old(FillEvicts(address)) ==>
        |pwb| == |old(pwb)| + 1 && MadeWay(old(Snap()), Snap(), requester, g.Block(address), victim)
      ensures !ok ==> StrandedStep(old(Snap()), Snap(), Newly(old(Snap()), Snap()))
    {
      BlockKeepsTagAndSet(g, address);
      MakeRoom(address, victim);
      label Room:
      ghost var s := g.SetOf(address);
      var way := Install(address);
      ok := way != -1;
      assert ok ==> way in old(model).p.AllowedFor(requester) && Place() == old@Room(Place())[g.Block(address) := Slot(s, way)];
      assert ok && old(FillEvicts(address)) ==> way == victim;
    }

    /** copyData on the line of a tracked block, where it sits. */
    method MergeData(b: nat, s: nat, way: int, data: seq<Byte>)
      requires Valid() && b in Place() && Addressable(s, way) && Place()[b] == CellAt(s, way)
      requires |data| == g.BlockSize()
      modifies this`mshr, this`pwb, this`model, lines
      ensures Valid() && Contents() == WithData(old(Contents()), b, data)
      ensures Place() == old(Place()) && model.filler == old(model.filler)
      ensures mshr.Keys == old(mshr.Keys) && pwb.Keys == old(pwb.Keys) && |pwb| == |old(pwb)|
      ensures b in mshr ==> mshr[b].data == Some(data)
      ensures forall i, j :: 0 <= i < lines.Length0 && 0 <= j < lines.Length1 ==> lines[i, j].valid == old(lines[i, j].valid)
    {
      RegistersNamePlace(b);
      var line := GetLine(s, way);
      StoreAt(b, s, way, line.(data := Some(data)));
      assert |pwb| == |pwb.Keys| && |old(pwb)| == |old(pwb.Keys)|;
      assert Mirrored(Mshr(b));
    }

    /** CacheDataHandler::updateLineData on a block found in the array. */
    method UpdateInArray(address: nat, s: nat, way: nat, data: seq<Byte>) returns (ok: bool)
      requires Valid() && |data| == g.BlockSize()
      requires g.Block(address) in Place() && Place()[g.Block(address)] == Slot(s, way)
      modifies this`mshr, this`pwb, this`model, this`readyCycle, lines
      ensures Valid()
      ensures ok <==> old(ArrayReady())
      ensures Contents() == if ok then WithData(old(Contents()), g.Block(address), data) else old(Contents())
      ensures Place() == old(Place()) && model.filler == old(model.filler) && |pwb| == |old(pwb)|
      ensures readyCycle == if ok then old(AccessEnd()) else old(readyCycle)
    {
      RegistersNamePlace(g.Block(address));
      ok := IsReady(address);
      if ok {
        MergeData(g.Block(address), s, way, data);
        if !pipelined { readyCycle := cycle + latency; }
      }
    }

    /** The MSHR branch of updateLineData: merge the bytes, make room, install. The requester's mask
        may be empty; then no way is free even after an eviction, the fill fails, and
        writeCacheLineData ends the run. */
    method FillFromMshr(address: nat, data: seq<Byte>, victim: nat) returns (ok: bool)
      requires Valid() && |data| == g.BlockSize() && g.Block(address) in mshr && PolicyChoice(address, victim)
      modifies this`mshr, this`pwb, this`pendingIssue, this`model, this`evicted, this`readyCycle, lines
      ensures Valid() && Contents() == WithData(old(Contents()), g.Block(address), data)
      ensures ok <==> Allowed() != {}
      ensures ok && !old(FillEvicts(address)) ==> FilledFree(old(Snap()), Snap(), requester, g.Block(address))
      ensures ok && old(FillEvicts(address)) ==>
        MadeWay(old(Snap()), Snap(), requester, g.Block(address), victim)
      ensures !ok ==> StrandedStep(old(Snap()), Snap(), Newly(old(Snap()), Snap()))
      ensures ok ==> |pwb| == |old(pwb)| + if old(FillEvicts(address)) then 1 else 0
      ensures readyCycle == old(AccessEnd())
    {
      RegistersNamePlace(g.Block(address));
      MergeData(g.Block(address), g.Block(address), -1, data);
      if !pipelined { readyCycle := cycle + latency; }
      label Merged:
      assert FillEvicts(address) == old(FillEvicts(address));
      ok := InstallFill(address, victim);
    }

    /** updateLineData: the bytes of the addressed block, and nothing else in the map, change. A
        block that was in the MSHR moves into the array, in a way its requester may fill; if that
        set is full the line in `victim` moves to the write-back buffer. */
    method UpdateLineData(address: nat, data: seq<Byte>, victim: nat) returns (ok: bool)
      requires Valid() && |data| == g.BlockSize() && PolicyChoice(address, victim)
      modifies this`mshr, this`pwb, this`pendingIssue, this`model, this`evicted, this`readyCycle, lines
      ensures Valid()
      ensures ok <==> || (old(InArray(g.Block(address))) && old(ArrayReady()))
                      || (g.Block(address) in old(mshr) && Allowed() != {})
                      || g.Block(address) in old(pwb)
      ensures Contents() == if ok || g.Block(address) in old(mshr)
                            then WithData(old(Contents()), g.Block(address), data) else old(Contents())
      ensures g.Block(address) !in old(mshr) ==> Place() == old(Place()) && evicted == old(evicted)
      ensures ok && g.Block(address) in old(mshr) && !old(FillEvicts(address)) ==>
        FilledFree(old(Snap()), Snap(), requester, g.Block(address))
      ensures ok && old(FillEvicts(address)) ==>
        MadeWay(old(Snap()), Snap(), requester, g.Block(address), victim)
      ensures Step(old(Snap()), DataOp(old(Snap()), Snap(), requester, g.Block(address)), Snap())
      ensures ok ==> |pwb| == |old(pwb)| + if old(FillEvicts(address)) then 1 else 0
      ensures readyCycle == if (ok && g.Block(address) !in old(pwb)) || g.Block(address) in old(mshr)
                            then old(AccessEnd()) else old(readyCycle)
      ensures ok && g.Block(address) !in old(pwb) && !pipelined ==> readyCycle == cycle + latency
    {
      var b := g.Block(address);
      RegistersNamePlace(b);
      var found, s, way := FindInArray(address);
      if found {
        ok := UpdateInArray(address, s, way, data);
      } else if b in mshr {
        ok := FillFromMshr(address, data, victim);
      } else if b in pwb {
        MergeData(b, b, -1, data);
        ok := true;
      } else {
        ok := false;
      }
    }

    // ---- accesses that leave every block where it is ------------------------------------------

    ghost predicate ReadyFor(b: nat)
      reads this`model, this`readyCycle, this`cycle
    {
      b in Contents() && (InRegister(b) || ArrayReady())
    }

    /** Whether bytes at this address stay within its block. modifyData tests the offset alone, and an
        offset is always below the block size: its "out of boundary" exit is never taken, and the copy
        overruns the line exactly when the bytes reach past the end of the block. */
    function Written(address: nat, bytes: seq<Byte>): ModifyOutcome {
      if g.Offset(address) + |bytes| <= g.BlockSize() then Modified else Overran
    }

    /** modifyData: bytes of one block change, at the offset the address names. */
    method ModifyData(address: nat, bytes: seq<Byte>, soft: bool) returns (outcome: ModifyOutcome)
      requires Valid()
      modifies this`mshr, this`pwb, this`model, this`readyCycle, lines
      ensures Valid() && Place() == old(Place()) && QuietStep(old(Snap()), Snap())
      ensures outcome == var b := g.Block(address);
                         if !(old(ReadyFor(b)) || (soft && b in old(Contents()))) then Refused
                         else if old(Contents())[b].data.None? then Unallocated else Written(address, bytes)
      ensures !outcome.Wrote() ==> Contents() == old(Contents())
      ensures outcome.Wrote() ==>
        Contents() == PatchData(old(Contents()), g.Block(address), g.Offset(address), bytes)
      ensures readyCycle == if outcome.Wrote() then old(AccessEnd()) else old(readyCycle)
      ensures outcome.Wrote() && !pipelined ==> readyCycle == cycle + latency
    {
      var b := g.Block(address);
      RegistersNamePlace(b);
      var found, s, way := FindLine(address);
      var ready := IsReady(address);
      if !found || !(ready || soft) { return Refused; }
      var line := GetLine(s, way);
      assert View(line) == Contents()[b];
      if line.data.None? { return Unallocated; }
      MergeData(b, s, way, Overwrite(line.data.value, g.Offset(address), bytes));
      if !pipelined { readyCycle := cycle + latency; }
      outcome := Written(address, bytes);
    }

    /** initialize: a block nobody tracks is written straight into the array, outside the partition (no
        requester is named), as the protocol's default line with these bytes; a tracked one is modified
        where it sits, ready or not, and its bytes are the children's too (`handOn`). */
    method Initialize(address: nat, default_: Line, bytes: seq<Byte>) returns (outcome: ModifyOutcome, handOn: bool)
      requires Valid() && requester == -1 && default_.valid && GoodData(g, View(default_))
      modifies this`mshr, this`pwb, this`model, this`readyCycle, lines
      ensures Valid() && (handOn <==> g.Block(address) in old(Contents()))
      ensures var b := g.Block(address);
        outcome == if b in old(Contents()) then (if old(Contents())[b].data.None? then Unallocated else Written(address, bytes))
                   else if old(SetFull(g.SetOf(address))) then NoRoom
                   else if default_.data.None? then Unallocated else Written(address, bytes)
      ensures !outcome.Wrote() ==> Contents() == old(Contents())
      ensures outcome.Wrote() ==> var b := g.Block(address);
        Contents() == if b in old(Contents()) then PatchData(old(Contents()), b, g.Offset(address), bytes)
                      else old(Contents())[b := Content(default_.bits, Some(Overwrite(default_.data.value, g.Offset(address), bytes)))]
      ensures Step(old(Snap()), if outcome.Wrote() && !handOn then Load(g.Block(address)) else Quiet, Snap())
    {
      var found, s, way := FindLine(address);
      handOn := found;
      if found {
        outcome := ModifyData(address, bytes, true);
        return;
      }
      way := FindEmptyWay(address);
      if way == -1 { return NoRoom, false; }
      if default_.data.None? { return Unallocated, false; }
      LoadLine(address, default_.(data := Some(Overwrite(default_.data.value, g.Offset(address), bytes))));
      outcome := Written(address, bytes);
    }

    /** A line for a block nobody tracks goes to a free way. */
    method LoadLine(address: nat, line: Line)
      requires Valid() && requester == -1 && g.Block(address) !in Contents() && !SetFull(g.SetOf(address))
      requires line.valid && line.data.Some? && GoodData(g, View(line))
      modifies this`model, lines
      ensures Valid() && Contents() == old(Contents())[g.Block(address) := View(line)]
      ensures Step(old(Snap()), Load(g.Block(address)), Snap())
    {
      var s, b := g.SetOf(address), g.Block(address);
      var way := WriteSlot(address, line);
      BlockKeepsTagAndSet(g, address);
      AddressOfTagAndSet(g, address);
      assert old(Mirrored(Slot(s, way)));
      model := Add(NameFiller(model, b, requester), b, Slot(s, way), lines[s, way]);
      forall c ensures Mirrored(c) { assert old(Mirrored(c)); }
    }

    /** readCacheLine: a copy of the addressed block's content into the caller's line, if it gave
        one; the store does not change. */
    method ReadCacheLine(address: nat, into: Option<Line>) returns (ok: bool, out: Option<Line>)
      requires Valid()
      modifies this`readyCycle
      ensures Valid()
      ensures ok <==> old(ReadyFor(g.Block(address)))
      ensures out == if ok && into.Some?
                     then Some(CopyLine(into.value, Line(true, Contents()[g.Block(address)].bits, 0, Contents()[g.Block(address)].data)))
                     else into
      ensures readyCycle == if ok && into.Some? then old(AccessEnd()) else old(readyCycle)
      ensures ok && into.Some? && !pipelined ==> readyCycle == cycle + latency
    {
      RegistersNamePlace(g.Block(address));
      out := into;
      var found, s, way := FindLine(address);
      var ready := IsReady(address);
      ok := found && ready;
      if ok && into.Some? {
        var line := GetLine(s, way);
        out := Some(CopyLine(into.value, line));
        if !pipelined { readyCycle := cycle + latency; }
      }
    }

    /** addressOfLinePendingWB: the oldest eviction not yet issued; with `clear` it counts as issued.
        `Valid` keeps issued + pendingIssue equal to all evictions, in order. */
    method AddressOfLinePendingWb(clear: bool) returns (address: Option<nat>)
      requires Valid()
      modifies this`pendingIssue, this`issued
      ensures Valid()
      ensures address == if old(pendingIssue) == [] then None else Some(evicted[|old(issued)|])
      ensures issued == if clear && address.Some? then old(issued) + [address.value] else old(issued)
    {
      if pendingIssue == [] { return None; }
      address := Some(pendingIssue[0]);
      if clear {
        issued := issued + [pendingIssue[0]];
        pendingIssue := pendingIssue[1..];
      }
    }

    // ---- the controller's use of the store ----------------------------------------------------

    /** writeCacheLineData once the array is granted: the fill is made in the requesting core's
        ways. `false` is the "update data of an unfound line" exit. */
    method WriteCacheLineData(address: nat, data: seq<Byte>, owner: nat, victim: nat) returns (ok: bool)
      requires Valid() && requester == -1 && |data| == g.BlockSize() && PolicyChoiceFor(owner, address, victim)
      modifies this`mshr, this`pwb, this`pendingIssue, this`model, this`evicted, this`readyCycle, this`requester, lines
      ensures Valid() && requester == -1
      ensures ok <==> || (old(InArray(g.Block(address))) && old(ArrayReady()))
                      || (g.Block(address) in old(mshr) && WaysOf(owner) != {})
                      || g.Block(address) in old(pwb)
      ensures ok ==> Contents() == WithData(old(Contents()), g.Block(address), data)
      ensures !ok ==> Contents() == if g.Block(address) in old(mshr) then WithData(old(Contents()), g.Block(address), data)
                                    else old(Contents())
      ensures Step(old(Snap()), DataOp(old(Snap()), Snap(), owner, g.Block(address)), Snap())
      ensures ok && g.Block(address) in old(mshr) && !old(FillEvictsFor(owner, address)) ==>
        FilledFree(old(Snap()), Snap(), owner, g.Block(address))
      ensures ok && old(FillEvictsFor(owner, address)) ==>
        MadeWay(old(Snap()), Snap(), owner, g.Block(address), victim)
      ensures g.Block(address) !in old(mshr) ==> Place() == old(Place()) && evicted == old(evicted)
    {
      SetRequester(owner);
      ok := UpdateLineData(address, data, victim);
      SetRequester(-1);
    }

    /** updateCacheLine: the one entry point of a state change. A change without a whole line of
        bytes updates the bits of a tracked block or opens an MSHR entry; one with bytes updates
        the bits and then writes the line. */
    method UpdateCacheLine(address: nat, line: Line, data: Option<seq<Byte>>, owner: nat, victim: nat)
      returns (ok: bool)
      requires Valid() && requester == -1 && PolicyChoiceFor(owner, address, victim) && GoodData(g, View(line))
      modifies this`mshr, this`pwb, this`pendingIssue, this`model, this`evicted, this`readyCycle, this`requester, lines
      ensures Valid() && requester == -1
      ensures var b := g.Block(address);
              var whole := data.Some? && line.valid && |data.value| >= g.BlockSize();
              && (!whole ==> ok && Contents() == if !line.valid then old(Contents()) - {b}
                    else if b in old(Contents()) then old(Contents())[b := Content(line.bits, old(Contents())[b].data)]
                    else old(Contents())[b := View(line)])
              && (whole && ok ==>
                    Contents() == old(Contents())[b := Content(line.bits, Some(data.value[..g.BlockSize()]))])
              && (whole ==> (ok <==> || (old(InArray(b)) && old(ArrayReady()))
                                     || (b in old(mshr) && WaysOf(owner) != {}) || b in old(pwb)))
              && (whole && !ok ==>
                    Contents() == if b in old(mshr) then old(Contents())[b := Content(line.bits, Some(data.value[..g.BlockSize()]))]
                    else if b in old(Contents()) then old(Contents())[b := Content(line.bits, old(Contents())[b].data)]
                    else old(Contents()))
      ensures var whole := data.Some? && line.valid && |data.value| >= g.BlockSize();
        Step(old(Snap()), if whole then DataOp(old(Snap()), Snap(), owner, g.Block(address)) else Quiet, Snap())
      ensures var whole := data.Some? && line.valid && |data.value| >= g.BlockSize();
        whole && ok && old(FillEvictsFor(owner, address)) ==>
          MadeWay(old(Snap()), Snap(), owner, g.Block(address), victim)
    {
      var b := g.Block(address);
      RegistersNamePlace(b);
      var found := UpdateLineBits(address, line);
      if data.None? || !line.valid || |data.value| < g.BlockSize() {
        if !found { WriteLineToMshr(address, line); }
        return true;
      }
      label Bits:
      ok := WriteCacheLineData(address, data.value[..g.BlockSize()], owner, victim);
      SameStep(old(Snap()), old@Bits(Snap()), DataOp(old(Snap()), Snap(), owner, b), Snap());
    }
  }
}

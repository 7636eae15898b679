/** The cache storage as one map.

    A cell is anywhere a line can sit: a way of a set, an MSHR entry or a write-back entry. The
    storage is a map from cells to lines; `Represents` says that it stands for one plain map from
    block address to content, every block in exactly one cell. The lemmas are the four moves the
    storage makes: rewrite a line in place, drop it, add one, relocate one. */
module CacheMap {
  import opened Wrappers
  import opened CacheLine
  import opened WayPartition
  import opened Geometry

  datatype Cell = Slot(set_: nat, way: nat) | Mshr(block: nat) | Pwb(block: nat)

  type Cells = map<Cell, Line>

  /** The block a cell's line belongs to: a way knows it by tag and set, a register by its key. */
  ghost function BlockIn(g: Geometry, cell: Cell, line: Line): nat {
    match cell
    case Slot(s, _) => if line.tag < 0 then 0 else g.Address(line.tag, s)
    case Mshr(b) => b
    case Pwb(b) => b
  }

  ghost predicate Tagged(cell: Cell, line: Line) { cell.Slot? ==> line.tag >= 0 }

  ghost predicate IsBlock(g: Geometry, b: nat) { g.Block(b) == b }

  /** A cell may hold block b: a way of b's set within the ways its requester may fill, or any
      register. */
  ghost predicate Fits(g: Geometry, p: Partition, filler: map<nat, int>, b: nat, cell: Cell) {
    match cell
    case Slot(s, w) => s == g.SetOf(b) && w < p.ways && b in filler && w in p.AllowedFor(filler[b])
    case _ => true
  }

  ghost predicate GoodData(g: Geometry, content: Content) {
    content.data.Some? ==> |content.data.value| == g.BlockSize()
  }

  /** The cells, and the plain map they stand for. */
  datatype Model = Model(g: Geometry, p: Partition, cells: Cells, filler: map<nat, int>,
                         place: map<nat, Cell>, contents: map<nat, Content>)

  /** Block b is where `place` says, in a cell it fits, with the content `contents` says. */
  ghost predicate Housed(m: Model, b: nat)
    requires b in m.place && b in m.contents
  {
    && IsBlock(m.g, b) && Fits(m.g, m.p, m.filler, b, m.place[b]) && m.place[b] in m.cells
    && BlockIn(m.g, m.place[b], m.cells[m.place[b]]) == b
    && View(m.cells[m.place[b]]) == m.contents[b] && GoodData(m.g, m.contents[b])
  }

  /** The line in cell c belongs to a block that lives in c. */
  ghost predicate Owned(m: Model, c: Cell)
    requires c in m.cells
  {
    && Tagged(c, m.cells[c])
    && BlockIn(m.g, c, m.cells[c]) in m.place && m.place[BlockIn(m.g, c, m.cells[c])] == c
  }

  ghost predicate Represents(m: Model) {
    && m.place.Keys == m.contents.Keys
    && (forall b {:trigger Housed(m, b)} :: b in m.place ==> Housed(m, b))
    && (forall c {:trigger Owned(m, c)} :: c in m.cells ==> Owned(m, c))
  }

  /** Storage whose every block has exactly one home. */
  type Storage = m: Model | Represents(m)
    witness Model(Geometry(0, 0), Partition(map[], {}, 0), map[], map[], map[], map[])

  // Each move is a function from storage to storage; the lemma before it is why the result is
  // storage again.

  lemma RewriteKeeps(m: Storage, b: nat, line: Line)
    requires b in m.place
    requires Tagged(m.place[b], line) && BlockIn(m.g, m.place[b], line) == b && GoodData(m.g, View(line))
    ensures Represents(m.(cells := m.cells[m.place[b] := line], contents := m.contents[b := View(line)]))
  {
    var r := m.(cells := m.cells[m.place[b] := line], contents := m.contents[b := View(line)]);
    assert Housed(m, b);
    forall a | a in r.place ensures Housed(r, a) {
      assert Housed(m, a);
      assert Owned(m, m.place[a]);
    }
    forall c | c in r.cells ensures Owned(r, c) {
      assert Owned(m, c);
    }
  }

  /** Rewriting a line where it sits changes the content of its block only. */
  ghost function Rewrite(m: Storage, b: nat, line: Line): (r: Storage)
    requires b in m.place
    requires Tagged(m.place[b], line) && BlockIn(m.g, m.place[b], line) == b && GoodData(m.g, View(line))
    ensures r.contents == m.contents[b := View(line)] && r.place == m.place
  {
    RewriteKeeps(m, b, line);
    m.(cells := m.cells[m.place[b] := line], contents := m.contents[b := View(line)])
  }

  lemma DropKeeps(m: Storage, b: nat)
    requires b in m.place
    ensures Represents(m.(cells := m.cells - {m.place[b]}, place := m.place - {b}, contents := m.contents - {b}))
  {
    var r := m.(cells := m.cells - {m.place[b]}, place := m.place - {b}, contents := m.contents - {b});
    assert Housed(m, b);
    forall a | a in r.place ensures Housed(r, a) {
      assert Housed(m, a);
    }
    forall c | c in r.cells ensures Owned(r, c) {
      assert Owned(m, c);
    }
  }

  /** Emptying the cell of a block removes that block only. */
  ghost function Drop(m: Storage, b: nat): (r: Storage)
    requires b in m.place
    ensures r.contents == m.contents - {b} && r.place == m.place - {b}
  {
    DropKeeps(m, b);
    m.(cells := m.cells - {m.place[b]}, place := m.place - {b}, contents := m.contents - {b})
  }

  lemma AddKeeps(m: Storage, b: nat, cell: Cell, line: Line)
    requires b !in m.place && cell !in m.cells
    requires IsBlock(m.g, b) && Fits(m.g, m.p, m.filler, b, cell)
    requires Tagged(cell, line) && BlockIn(m.g, cell, line) == b && GoodData(m.g, View(line))
    ensures Represents(m.(cells := m.cells[cell := line], place := m.place[b := cell], contents := m.contents[b := View(line)]))
  {
    var r := m.(cells := m.cells[cell := line], place := m.place[b := cell], contents := m.contents[b := View(line)]);
    forall a | a in r.place ensures Housed(r, a) {
      if a != b { assert Housed(m, a); }
    }
    forall c | c in r.cells ensures Owned(r, c) {
      if c != cell { assert Owned(m, c); }
    }
  }

  /** A line of an absent block put into a free cell adds that block only. */
  ghost function Add(m: Storage, b: nat, cell: Cell, line: Line): (r: Storage)
    requires b !in m.place && cell !in m.cells
    requires IsBlock(m.g, b) && Fits(m.g, m.p, m.filler, b, cell)
    requires Tagged(cell, line) && BlockIn(m.g, cell, line) == b && GoodData(m.g, View(line))
    ensures r.contents == m.contents[b := View(line)] && r.place == m.place[b := cell]
  {
    AddKeeps(m, b, cell, line);
    m.(cells := m.cells[cell := line], place := m.place[b := cell], contents := m.contents[b := View(line)])
  }

  lemma RelocateKeeps(m: Storage, b: nat, cell: Cell, line: Line)
    requires b in m.place && cell !in m.cells
    requires Fits(m.g, m.p, m.filler, b, cell) && Tagged(cell, line) && BlockIn(m.g, cell, line) == b
    requires View(line) == m.contents[b]
    ensures Represents(m.(cells := (m.cells - {m.place[b]})[cell := line], place := m.place[b := cell]))
  {
    var r := m.(cells := (m.cells - {m.place[b]})[cell := line], place := m.place[b := cell]);
    assert Housed(m, b);
    forall a | a in r.place ensures Housed(r, a) {
      assert Housed(m, a);
    }
    forall c | c in r.cells ensures Owned(r, c) {
      if c != cell { assert Owned(m, c); }
    }
  }

  /** Relocating a line with its content unchanged leaves the map unchanged: an eviction. */
  ghost function Relocate(m: Storage, b: nat, cell: Cell, line: Line): (r: Storage)
    requires b in m.place && cell !in m.cells
    requires Fits(m.g, m.p, m.filler, b, cell) && Tagged(cell, line) && BlockIn(m.g, cell, line) == b
    requires View(line) == m.contents[b]
    ensures r.contents == m.contents && r.place == m.place[b := cell]
  {
    RelocateKeeps(m, b, cell, line);
    m.(cells := (m.cells - {m.place[b]})[cell := line], place := m.place[b := cell])
  }

  lemma NameFillerKeeps(m: Storage, b: nat, core: int)
    requires b in m.place ==> !m.place[b].Slot?
    ensures Represents(m.(filler := m.filler[b := core]))
  {
    var r := m.(filler := m.filler[b := core]);
    forall a | a in r.place ensures Housed(r, a) {
      assert Housed(m, a);
    }
    forall c | c in r.cells ensures Owned(r, c) {
      assert Owned(m, c);
    }
  }

  /** Naming the requester of a block outside the array disturbs nothing. */
  ghost function NameFiller(m: Storage, b: nat, core: int): (r: Storage)
    requires b in m.place ==> !m.place[b].Slot?
    ensures r.contents == m.contents && r.place == m.place
  {
    NameFillerKeeps(m, b, core);
    m.(filler := m.filler[b := core])
  }

  /** The cells determine the map, so `contents` and `place` say what the registers hold and no
      more. */
  lemma RepresentationIsUnique(m: Storage, n: Storage)
    requires m.g == n.g && m.p == n.p && m.cells == n.cells
    ensures m.place == n.place && m.contents == n.contents
  {
    forall b | b in m.place ensures b in n.place && n.place[b] == m.place[b] {
      assert Housed(m, b) && Owned(n, m.place[b]);
    }
    forall b | b in n.place ensures b in m.place {
      assert Housed(n, b) && Owned(m, n.place[b]);
    }
    forall b | b in m.place ensures m.contents[b] == n.contents[b] {
      assert Housed(m, b) && Housed(n, b);
    }
  }

  /** No two cells hold one block: with a second entry for a block that has its home elsewhere the
      registers stand for no map. */
  lemma OneCellPerBlock(m: Storage, c: Cell, d: Cell)
    requires c in m.cells && d in m.cells && BlockIn(m.g, c, m.cells[c]) == BlockIn(m.g, d, m.cells[d])
    ensures c == d
  {
    assert Owned(m, c) && Owned(m, d);
  }

  /** Cores with disjoint way masks never meet in a way: whoever was installed in a way the
      requester may fill has a mask that meets the requester's. */
  lemma VictimSharesAWay(m: Storage, requester: int, victim: nat)
    requires victim in m.place && m.place[victim].Slot?
    requires m.place[victim].way in m.p.AllowedFor(requester)
    ensures victim in m.filler && !(m.p.AllowedFor(requester) !! m.p.AllowedFor(m.filler[victim]))
  {
    assert Housed(m, victim);
    assert m.place[victim].way in m.p.AllowedFor(requester) * m.p.AllowedFor(m.filler[victim]);
  }
}

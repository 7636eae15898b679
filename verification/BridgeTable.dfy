/** The transaction table of the gem5 bridge (gem5/octopus.cc): accepted requests, their commits and
    completions, and the data operations held back behind older overlapping writes. */
module BridgeTable {
  import opened BridgeOrder

  /** PendingTxn: an accepted request until its response is sent. */
  datatype Txn = Txn(pkt: Packet, seqNo: nat, committed: bool, dataDone: bool, completionArrived: bool,
                     data: seq<Byte>)    // once dataDone: the bytes the response carries

  type Table = map<nat, Txn>

  /** Everything that has happened on this bridge. Requests are named by acceptance order. */
  datatype Ledger = Ledger(
    accepted: seq<Packet>, ids: seq<nat>,        // by acceptance order: the packet, its msg_id
    committed: set<nat>, completed: set<nat>,    // whose commit, whose completion has arrived
    performed: seq<nat>, answered: seq<nat>)     // in the order the bridge did it

  /** blockedByOlderWrite. */
  ghost predicate Blocked(table: Table, txn: Txn) {
    exists id :: id in table && BlocksIt(table[id], txn)
  }

  predicate BlocksIt(older: Txn, txn: Txn) {
    older.seqNo < txn.seqNo && !older.dataDone && older.pkt.isWrite && Overlap(older.pkt, txn.pkt)
  }

  /** Committed, not performed, and nothing older in the way. */
  ghost predicate Runnable(table: Table, id: nat) {
    id in table && table[id].committed && !table[id].dataDone && !Blocked(table, table[id])
  }

  /** The ids releaseHeldBack collects. */
  ghost function Held(table: Table): set<nat> {
    set id | id in table && table[id].committed && !table[id].dataDone
  }

  ghost predicate Distinct(s: seq<nat>) {
    forall i, j :: 0 <= i < j < |s| ==> s[i] != s[j]
  }

  /** A table entry says what the ledger says of its request. */
  ghost predicate EntryMatches(table: Table, l: Ledger, id: nat)
    requires id in table && |l.ids| == |l.accepted|
  {
    var t := table[id];
    && t.seqNo < |l.accepted| && l.ids[t.seqNo] == id && l.accepted[t.seqNo] == t.pkt
    && (t.committed <==> t.seqNo in l.committed)
    && (t.completionArrived <==> t.seqNo in l.completed)
    && (t.dataDone <==> t.seqNo in l.performed)
    && t.seqNo !in l.answered
    && !(t.dataDone && t.completionArrived)
  }

  ghost predicate Tracked(table: Table, l: Ledger, s: nat)
    requires s < |l.ids|
  {
    l.ids[s] in table && table[l.ids[s]].seqNo == s
  }

  /** Every accepted request is in the table or answered, and what was done was allowed. */
  ghost predicate Consistent(table: Table, l: Ledger) {
    && |l.ids| == |l.accepted| && Distinct(l.ids)
    && (forall id {:trigger EntryMatches(table, l, id)} :: id in table ==> EntryMatches(table, l, id))
    && (forall s {:trigger Tracked(table, l, s)} :: 0 <= s < |l.accepted| && s !in l.answered ==> Tracked(table, l, s))
    && RespectsOlderWrites(l.accepted, l.performed)
    && (forall s :: s in l.performed ==> s in l.committed)
    && (forall s :: s in l.completed ==> s in l.committed)
    && (forall s :: s in l.committed ==> s < |l.accepted|)
    && Distinct(l.answered)
    && (forall s :: s in l.answered ==> s in l.performed && s in l.completed)
  }

  /** Between callbacks nothing runnable waits. */
  ghost predicate Quiescent(table: Table) { forall id :: !Runnable(table, id) }

  /** A later ledger of the same bridge, with no commit or completion in between: what a data
      operation and everything it releases may do. */
  ghost predicate Extends(l: Ledger, l': Ledger) {
    && l.accepted <= l'.accepted && l.ids <= l'.ids
    && l.committed == l'.committed && l.completed == l'.completed
    && l.performed <= l'.performed && l.answered <= l'.answered
  }

  /** A held-back request names its blocker: an older, unperformed, overlapping write. */
  lemma HeldBackIsBlocked(table: Table, l: Ledger, s: nat)
    requires Consistent(table, l) && Quiescent(table)
    requires s in l.committed && s !in l.performed
    ensures exists w: nat :: Precedes(l.accepted, w, s) && w !in l.performed
  {
    var id := l.ids[s];
    assert s !in l.answered;
    assert Tracked(table, l, s);
    assert EntryMatches(table, l, id) && !Runnable(table, id);
    var older :| older in table && BlocksIt(table[older], table[id]);
    assert EntryMatches(table, l, older);
    assert Precedes(l.accepted, table[older].seqNo, s);
  }

  /** In bytes: a committed request waits only for an older write that shares a byte with it. */
  lemma HeldBackSharesAByte(table: Table, l: Ledger, s: nat)
    requires Consistent(table, l) && Quiescent(table)
    requires s in l.committed && s !in l.performed && forall k :: 0 <= k < |l.accepted| ==> l.accepted[k].size > 0
    ensures exists w: nat, b: nat ::
      w < s && l.accepted[w].isWrite && w !in l.performed && Covers(l.accepted[w], b) && Covers(l.accepted[s], b)
  {
    HeldBackIsBlocked(table, l, s);
    var w: nat :| Precedes(l.accepted, w, s) && w !in l.performed;
    OverlapIff(l.accepted[w], l.accepted[s]);
    var b: nat :| Covers(l.accepted[w], b) && Covers(l.accepted[s], b);
  }

  /** No commit is left behind: once every request up to s has committed, all of them have been
      performed, whatever order the commits came in. */
  lemma {:induction false} CommittedPrefixIsPerformed(table: Table, l: Ledger, s: nat)
    requires Consistent(table, l) && Quiescent(table) && s < |l.accepted|
    requires forall k :: 0 <= k <= s ==> k in l.committed
    ensures forall k :: 0 <= k <= s ==> k in l.performed
  {
    if s > 0 { CommittedPrefixIsPerformed(table, l, s - 1); }
    if s !in l.performed { HeldBackIsBlocked(table, l, s); }
  }

  lemma TableIsKnown(table: Table, l: Ledger)
    requires Consistent(table, l)
    ensures forall id :: id in table ==> id in l.ids
    ensures forall s :: 0 <= s < |l.accepted| ==> (s in l.answered <==> l.ids[s] !in table)
  {
    forall id | id in table ensures id in l.ids {
      assert EntryMatches(table, l, id);
      assert l.ids[table[id].seqNo] == id;
    }
    forall s | 0 <= s < |l.accepted| && s in l.answered ensures l.ids[s] !in table {
      forall id | id in table ensures id != l.ids[s] {
        assert EntryMatches(table, l, id);
        assert table[id].seqNo != s;
      }
    }
    forall s | 0 <= s < |l.accepted| && s !in l.answered ensures l.ids[s] in table {
      assert Tracked(table, l, s);
    }
  }

  /** Each request is answered exactly once, and exactly when both its data operation and its
      completion are there; until then, and no longer, it is in the table. */
  lemma AnsweredIffPerformedAndCompleted(table: Table, l: Ledger, s: nat)
    requires Consistent(table, l) && s < |l.accepted|
    ensures s in l.answered <==> s in l.performed && s in l.completed
    ensures s in l.answered <==> l.ids[s] !in table
    ensures multiset(l.answered)[s] <= 1
  {
    TableIsKnown(table, l);
    if s !in l.answered {
      assert Tracked(table, l, s);
      assert EntryMatches(table, l, l.ids[s]);
    }
    AtMostOnce(l.answered, s);
  }

  lemma {:induction false} AtMostOnce(list: seq<nat>, s: nat)
    requires Distinct(list)
    ensures multiset(list)[s] <= 1
  {
    if list != [] {
      var n := |list| - 1;
      AtMostOnce(list[..n], s);
      assert list == list[..n] + [list[n]];
      if list[n] == s { assert s !in list[..n]; }
    }
  }

  // ---- the steps --------------------------------------------------------------------------------

  ghost function Accept(l: Ledger, id: nat, pkt: Packet): Ledger {
    l.(accepted := l.accepted + [pkt], ids := l.ids + [id])
  }

  function NewTxn(l: Ledger, pkt: Packet): Txn { Txn(pkt, |l.accepted|, false, false, false, []) }

  lemma {:induction false} AcceptKeeps(table: Table, l: Ledger, id: nat, pkt: Packet)
    requires Consistent(table, l) && id !in l.ids
    ensures id !in table
    ensures Consistent(table[id := NewTxn(l, pkt)], Accept(l, id, pkt))
    ensures forall k :: Runnable(table[id := NewTxn(l, pkt)], k) ==> Runnable(table, k)
    ensures Held(table[id := NewTxn(l, pkt)]) == Held(table)
  {
    TableIsKnown(table, l);
    var t := NewTxn(l, pkt);
    var table', l' := table[id := t], Accept(l, id, pkt);
    forall k | k in table' ensures EntryMatches(table', l', k) {
      if k != id { assert EntryMatches(table, l, k); }
    }
    forall s | 0 <= s < |l'.accepted| && s !in l'.answered ensures Tracked(table', l', s) {
      if s < |l.accepted| { assert Tracked(table, l, s); }
    }
    forall i, w: nat | 0 <= i < |l'.performed| && Precedes(l'.accepted, w, l'.performed[i])
      ensures w in l'.performed[..i]
    {
      assert Precedes(l.accepted, w, l.performed[i]);
    }
    BlockersCarryOver(table, table');
  }

  /** Blocking looks at order, data and packets of unperformed writes only. */
  lemma BlockersCarryOver(table: Table, table': Table)
    requires forall k :: k in table && !table[k].dataDone && table[k].pkt.isWrite ==>
      k in table' && !table'[k].dataDone && table'[k].seqNo == table[k].seqNo && table'[k].pkt == table[k].pkt
    ensures forall t: Txn :: Blocked(table, t) ==> Blocked(table', t)
  {
    forall t: Txn | Blocked(table, t) ensures Blocked(table', t) {
      var o :| o in table && BlocksIt(table[o], t);
      assert BlocksIt(table'[o], t);
    }
  }

  ghost function Commit(l: Ledger, s: nat): Ledger { l.(committed := l.committed + {s}) }

  lemma {:induction false} CommitKeeps(table: Table, l: Ledger, id: nat)
    requires Consistent(table, l) && id in table && !table[id].committed
    ensures var table' := table[id := table[id].(committed := true)];
      && Consistent(table', Commit(l, table[id].seqNo))
      && (forall k :: k != id && Runnable(table', k) ==> Runnable(table, k))
      && (forall t: Txn :: Blocked(table', t) <==> Blocked(table, t))
  {
    var table', l' := table[id := table[id].(committed := true)], Commit(l, table[id].seqNo);
    assert EntryMatches(table, l, id);
    forall k | k in table' ensures EntryMatches(table', l', k) {
      assert EntryMatches(table, l, k);
      if k != id { assert l.ids[table[k].seqNo] != l.ids[table[id].seqNo]; }
    }
    forall k | 0 <= k < |l'.accepted| && k !in l'.answered ensures Tracked(table', l', k) {
      assert Tracked(table, l, k);
    }
    BlockersCarryOver(table, table');
    BlockersCarryOver(table', table);
  }

  /** The data operation of one request, and its response if the completion is already there. */
  ghost function Perform(l: Ledger, s: nat): Ledger {
    l.(performed := l.performed + [s], answered := if s in l.completed then l.answered + [s] else l.answered)
  }

  function PerformTable(table: Table, id: nat, data: seq<Byte>): Table
    requires id in table
  {
    if table[id].completionArrived then table - {id} else table[id := table[id].(dataDone := true, data := data)]
  }

  lemma {:induction false} PerformKeeps(table: Table, l: Ledger, id: nat, data: seq<Byte>)
    requires Consistent(table, l) && Runnable(table, id)
    ensures table[id].seqNo < |l.accepted|
    ensures Consistent(PerformTable(table, id, data), Perform(l, table[id].seqNo))
  {
    var s := table[id].seqNo;
    var table', l' := PerformTable(table, id, data), Perform(l, s);
    assert EntryMatches(table, l, id);
    forall k | k in table' ensures EntryMatches(table', l', k) {
      assert EntryMatches(table, l, k);
      if k != id { assert l.ids[table[k].seqNo] != l.ids[s]; }
    }
    forall k | 0 <= k < |l'.accepted| && k !in l'.answered ensures Tracked(table', l', k) {
      assert Tracked(table, l, k);
    }
    forall w: nat | Precedes(l.accepted, w, s) ensures w in l.performed {
      if w !in l.answered {
        assert Tracked(table, l, w);
        assert EntryMatches(table, l, l.ids[w]);
        assert !BlocksIt(table[l.ids[w]], table[id]);
      }
    }
    RunNext(l.accepted, l.performed, s);
  }

  /** Performing a read makes nothing else runnable; performing anything shortens the held list. */
  lemma PerformHolds(table: Table, id: nat, data: seq<Byte>)
    requires Runnable(table, id)
    ensures !table[id].pkt.isWrite ==> forall k :: Runnable(PerformTable(table, id, data), k) ==> Runnable(table, k)
    ensures !Runnable(PerformTable(table, id, data), id)
    ensures Held(PerformTable(table, id, data)) == Held(table) - {id}
  {
    if !table[id].pkt.isWrite { BlockersCarryOver(table, PerformTable(table, id, data)); }
  }

  lemma RunNext(accepted: seq<Packet>, order: seq<nat>, s: nat)
    requires RespectsOlderWrites(accepted, order) && s < |accepted| && s !in order
    requires forall w: nat :: Precedes(accepted, w, s) ==> w in order
    ensures RespectsOlderWrites(accepted, order + [s])
  {
    var order' := order + [s];
    forall i, w: nat | 0 <= i < |order'| && Precedes(accepted, w, order'[i]) ensures w in order'[..i] {
      assert order'[..i] == order[..i];
      if i == |order| { assert order[..i] == order; }
    }
  }

  ghost function Complete(l: Ledger, s: nat): Ledger {
    l.(completed := l.completed + {s}, answered := if s in l.performed then l.answered + [s] else l.answered)
  }

  function CompleteTable(table: Table, id: nat): Table
    requires id in table
  {
    if table[id].dataDone then table - {id} else table[id := table[id].(completionArrived := true)]
  }

  lemma {:induction false} CompleteKeeps(table: Table, l: Ledger, id: nat)
    requires Consistent(table, l) && id in table && table[id].committed
    requires !table[id].completionArrived
    ensures Consistent(CompleteTable(table, id), Complete(l, table[id].seqNo))
    ensures forall k :: Runnable(CompleteTable(table, id), k) ==> Runnable(table, k)
  {
    var s := table[id].seqNo;
    var table', l' := CompleteTable(table, id), Complete(l, s);
    assert EntryMatches(table, l, id);
    forall k | k in table' ensures EntryMatches(table', l', k) {
      assert EntryMatches(table, l, k);
      if k != id { assert l.ids[table[k].seqNo] != l.ids[s]; }
    }
    forall k | 0 <= k < |l'.accepted| && k !in l'.answered ensures Tracked(table', l', k) {
      assert Tracked(table, l, k);
    }
    BlockersCarryOver(table, table');
  }

  // ---- memory and responses ---------------------------------------------------------------------

  datatype Response = Response(id: nat, data: seq<Byte>)

  type Seen = map<nat, seq<Byte>>

  /** Memory is the performed packets replayed, and `seen` has for each the bytes it found. */
  ghost predicate Remembered(initial: Memory, accepted: seq<Packet>, performed: seq<nat>, mem: Memory, seen: Seen) {
    && (forall i :: 0 <= i < |performed| ==> performed[i] < |accepted|)
    && mem == Replay(initial, accepted, performed)
    && (forall i {:trigger Found(initial, accepted, performed, seen, i)} :: 0 <= i < |performed| ==>
          Found(initial, accepted, performed, seen, i))
  }

  ghost predicate Found(initial: Memory, accepted: seq<Packet>, performed: seq<nat>, seen: Seen, i: nat)
    requires i < |performed| && forall k :: 0 <= k < |performed| ==> performed[k] < |accepted|
  {
    && performed[i] in seen
    && seen[performed[i]] == Region(accepted[performed[i]], Replay(initial, accepted, performed[..i]))
  }

  /** A performed packet holds those bytes, and each response carried them. */
  ghost predicate Delivered(table: Table, l: Ledger, seen: Seen, sent: seq<Response>) {
    && (forall id :: id in table && table[id].dataDone ==>
          table[id].seqNo in seen && table[id].data == seen[table[id].seqNo])
    && |sent| == |l.answered|
    && (forall i :: 0 <= i < |sent| ==>
          l.answered[i] < |l.ids| && l.answered[i] in seen && sent[i] == Response(l.ids[l.answered[i]], seen[l.answered[i]]))
  }

  lemma {:induction false} ReplayIgnoresLater(mem: Memory, accepted: seq<Packet>, more: seq<Packet>, order: seq<nat>)
    requires forall i :: 0 <= i < |order| ==> order[i] < |accepted|
    ensures Replay(mem, accepted + more, order) == Replay(mem, accepted, order)
    decreases |order|
  {
    if order != [] { ReplayIgnoresLater(mem, accepted, more, order[..|order| - 1]); }
  }

  lemma AcceptRemembers(initial: Memory, accepted: seq<Packet>, performed: seq<nat>, mem: Memory, seen: Seen, pkt: Packet)
    requires Remembered(initial, accepted, performed, mem, seen)
    ensures Remembered(initial, accepted + [pkt], performed, mem, seen)
  {
    ReplayIgnoresLater(initial, accepted, [pkt], performed);
    forall i | 0 <= i < |performed| ensures Found(initial, accepted + [pkt], performed, seen, i) {
      assert Found(initial, accepted, performed, seen, i);
      ReplayIgnoresLater(initial, accepted, [pkt], performed[..i]);
    }
  }

  lemma PerformRemembers(initial: Memory, accepted: seq<Packet>, performed: seq<nat>, mem: Memory, seen: Seen, s: nat)
    requires Remembered(initial, accepted, performed, mem, seen) && s < |accepted| && s !in performed
    ensures Remembered(initial, accepted, performed + [s], Apply(accepted[s], mem), seen[s := Region(accepted[s], mem)])
  {
    var performed', seen' := performed + [s], seen[s := Region(accepted[s], mem)];
    assert performed'[..|performed|] == performed;
    forall i | 0 <= i < |performed'| ensures Found(initial, accepted, performed', seen', i) {
      if i < |performed| {
        assert Found(initial, accepted, performed, seen, i);
        assert performed'[..i] == performed[..i] && performed'[i] in performed;
      }
    }
  }

  lemma {:induction false} PerformDelivers(table: Table, l: Ledger, seen: Seen, sent: seq<Response>, id: nat, data: seq<Byte>)
    requires Consistent(table, l) && Delivered(table, l, seen, sent) && Runnable(table, id)
    ensures var s := table[id].seqNo;
      && s < |l.ids| && l.ids[s] == id && l.accepted[s] == table[id].pkt && s !in l.performed
      && (table[id].completionArrived <==> s in l.completed)
      && Delivered(PerformTable(table, id, data), Perform(l, s), seen[s := data],
                   if table[id].completionArrived then sent + [Response(id, data)] else sent)
  {
    var s := table[id].seqNo;
    assert EntryMatches(table, l, id);
    forall k | k in table && k != id ensures table[k].seqNo != s {
      assert EntryMatches(table, l, k);
    }
    forall i | 0 <= i < |l.answered| ensures l.answered[i] != s {
      assert l.answered[i] in l.answered;
    }
  }

  // ---- the bridge as a value --------------------------------------------------------------------

  datatype State = State(initial: Memory, table: Table, l: Ledger, mem: Memory, seen: Seen, sent: seq<Response>,
                         nextId: nat)

  /** The four sides of soundness. Sound is a quantifier over them, so that the verifier unfolds a side
      where a proof names it and not at every mention of the whole. */
  datatype Aspect = TableAgrees | MemoryAgrees | ResponsesAgree | IdsAreFresh

  ghost predicate Holds(s: State, aspect: Aspect) {
    match aspect
    case TableAgrees => Consistent(s.table, s.l)
    case MemoryAgrees => Remembered(s.initial, s.l.accepted, s.l.performed, s.mem, s.seen)
    case ResponsesAgree => Delivered(s.table, s.l, s.seen, s.sent)
    case IdsAreFresh => forall id :: id in s.l.ids ==> id < s.nextId
  }

  ghost predicate Sound(s: State) {
    forall aspect {:trigger Holds(s, aspect)} :: Holds(s, aspect)
  }

  lemma Unpack(s: SoundState)
    ensures Holds(s, TableAgrees) && Holds(s, MemoryAgrees) && Holds(s, ResponsesAgree) && Holds(s, IdsAreFresh)
  {
  }

  /** A bridge whose table, memory and responses agree with its history. */
  type SoundState = s: State | Sound(s)
    witness State([], map[], Ledger([], [], {}, {}, [], []), [], map[], [], 0)

  ghost function Accepted(s: SoundState, pkt: Packet, nextId: nat): (r: SoundState)
    requires s.nextId < nextId
    ensures r.l == Accept(s.l, s.nextId, pkt) && r.table == s.table[s.nextId := NewTxn(s.l, pkt)]
    ensures r.initial == s.initial && r.mem == s.mem && r.sent == s.sent && r.nextId == nextId
    ensures Extends(s.l, r.l) && Held(r.table) == Held(s.table)
    ensures forall k :: Runnable(r.table, k) ==> Runnable(s.table, k)
  {
    Unpack(s);
    AcceptKeeps(s.table, s.l, s.nextId, pkt);
    AcceptRemembers(s.initial, s.l.accepted, s.l.performed, s.mem, s.seen, pkt);
    s.(table := s.table[s.nextId := NewTxn(s.l, pkt)], l := Accept(s.l, s.nextId, pkt), nextId := nextId)
  }

  ghost function Committed(s: SoundState, id: nat): (r: SoundState)
    requires id in s.table && !s.table[id].committed
    ensures r == s.(table := s.table[id := s.table[id].(committed := true)], l := Commit(s.l, s.table[id].seqNo))
    ensures forall k :: k != id && Runnable(r.table, k) ==> Runnable(s.table, k)
    ensures !r.table[id].dataDone
  {
    Unpack(s);
    CommitKeeps(s.table, s.l, id);
    assert EntryMatches(s.table, s.l, id);
    s.(table := s.table[id := s.table[id].(committed := true)], l := Commit(s.l, s.table[id].seqNo))
  }

  ghost function Performed(s: SoundState, id: nat): (r: SoundState)
    requires Runnable(s.table, id)
    ensures r.l == Perform(s.l, s.table[id].seqNo) && r.initial == s.initial && r.nextId == s.nextId
    ensures r.mem == Apply(s.table[id].pkt, s.mem)
    ensures Stores(s.table[id].pkt, s.mem) ==> CarriesBytes(s.table[id].pkt.effect(Region(s.table[id].pkt, s.mem)), s.table[id].pkt, r.mem)
    ensures var data := Region(s.table[id].pkt, s.mem);
      && r.table == PerformTable(s.table, id, data)
      && r.sent == if s.table[id].completionArrived then s.sent + [Response(id, data)] else s.sent
    ensures Extends(s.l, r.l) && s.table[id].seqNo in r.l.performed
    ensures Held(r.table) == Held(s.table) - {id}
    ensures !s.table[id].pkt.isWrite ==> forall k :: Runnable(r.table, k) ==> k != id && Runnable(s.table, k)
  {
    Unpack(s);
    var n, data := s.table[id].seqNo, Region(s.table[id].pkt, s.mem);
    PerformKeeps(s.table, s.l, id, data);
    PerformHolds(s.table, id, data);
    PerformDelivers(s.table, s.l, s.seen, s.sent, id, data);
    PerformRemembers(s.initial, s.l.accepted, s.l.performed, s.mem, s.seen, n);
    StoreLeavesItsEffect(s.table[id].pkt, s.mem);
    var r := s.(table := PerformTable(s.table, id, data), l := Perform(s.l, n), mem := Apply(s.table[id].pkt, s.mem),
                seen := s.seen[n := data],
                sent := if s.table[id].completionArrived then s.sent + [Response(id, data)] else s.sent);
    assert n in r.l.performed;
    r
  }

  lemma {:induction false} CompleteDelivers(table: Table, l: Ledger, seen: Seen, sent: seq<Response>, id: nat)
    requires Consistent(table, l) && Delivered(table, l, seen, sent) && id in table
    ensures table[id].seqNo < |l.ids| && l.ids[table[id].seqNo] == id
    ensures table[id].dataDone <==> table[id].seqNo in l.performed
    ensures Delivered(CompleteTable(table, id), Complete(l, table[id].seqNo), seen,
                      if table[id].dataDone then sent + [Response(id, table[id].data)] else sent)
  {
    assert EntryMatches(table, l, id);
  }

  ghost function Completed(s: SoundState, id: nat): (r: SoundState)
    requires id in s.table && s.table[id].committed && !s.table[id].completionArrived
    ensures r.l == Complete(s.l, s.table[id].seqNo) && r.table == CompleteTable(s.table, id)
    ensures r.initial == s.initial && r.mem == s.mem && r.nextId == s.nextId
    ensures r.sent == if s.table[id].dataDone then s.sent + [Response(id, s.table[id].data)] else s.sent
    ensures forall k :: Runnable(r.table, k) ==> Runnable(s.table, k)
  {
    Unpack(s);
    CompleteKeeps(s.table, s.l, id);
    CompleteDelivers(s.table, s.l, s.seen, s.sent, id);
    s.(table := CompleteTable(s.table, id), l := Complete(s.l, s.table[id].seqNo),
       sent := if s.table[id].dataDone then s.sent + [Response(id, s.table[id].data)] else s.sent)
  }

  /** A performed request whose completion has arrived is answered at once, never left waiting. */
  lemma NoAnswerWaits(s: SoundState, id: nat)
    requires id in s.table
    ensures !(s.table[id].dataDone && s.table[id].completionArrived)
  {
    Unpack(s);
    assert EntryMatches(s.table, s.l, id);
  }

  /** An id taken from the held list still names the committed request it named then. */
  lemma StillCommitted(s: SoundState, id: nat, r: SoundState)
    requires id in s.table && s.table[id].committed && Extends(s.l, r.l) && id in r.table
    ensures r.table[id].committed
  {
    Unpack(s);
    Unpack(r);
    assert EntryMatches(s.table, s.l, id) && EntryMatches(r.table, r.l, id);
    assert r.l.ids[s.table[id].seqNo] == r.l.ids[r.table[id].seqNo];
  }

  // ---- runs of callbacks ----------------------------------------------------------------------------

  /** What a data operation and everything it sets off leave in place: the memory the bridge started
      with, every response already sent, and the ledger but for its extension. */
  ghost predicate Continues(s: State, t: State) {
    t.initial == s.initial && s.sent <= t.sent && Extends(s.l, t.l)
  }

  /** A call from the CPU or from the engine. A packet may be refused; it enters when its sender is
      told to retry. */
  datatype Callback = Access(pkt: Packet, refused: bool) | Commits(id: nat, address: nat) | Completes(id: nat)

  ghost predicate CommitPanics(s: State, id: nat, address: nat) {
    id !in s.table || s.table[id].committed || s.table[id].pkt.addr != address
  }

  ghost predicate CompletePanics(s: State, id: nat) { id !in s.table || !s.table[id].committed }

  /** What one callback does to the bridge, as seen from outside: its own ledger entry, and whatever
      that sets off. */
  ghost predicate Happens(s: State, e: Callback, t: State) {
    match e
    case Access(pkt, refused) => if refused then t == s else Continues(s.(l := Accept(s.l, s.nextId, pkt)), t)
    case Commits(id, address) =>
      if CommitPanics(s, id, address) then t == s else Continues(s.(l := Commit(s.l, s.table[id].seqNo)), t)
    case Completes(id) =>
      if CompletePanics(s, id) then t == s
      else if s.table[id].completionArrived then Continues(s, t)
      else Continues(s.(l := Complete(s.l, s.table[id].seqNo)), t)
  }

  /** A run: the states between callbacks. */
  ghost predicate Run(states: seq<SoundState>, events: seq<Callback>) {
    && |states| == |events| + 1
    && (forall i {:trigger states[i]} :: 0 <= i < |states| ==> Quiescent(states[i].table))
    && (forall i {:trigger events[i]} :: 0 <= i < |events| ==> Happens(states[i], events[i], states[i + 1]))
  }

  /** Nothing is taken back: the starting memory stays, responses and history only grow. */
  ghost predicate Grows(s: State, t: State) {
    && t.initial == s.initial && s.sent <= t.sent
    && s.l.accepted <= t.l.accepted && s.l.ids <= t.l.ids && s.l.committed <= t.l.committed
    && s.l.completed <= t.l.completed && s.l.performed <= t.l.performed && s.l.answered <= t.l.answered
  }

  lemma {:induction false} RunGrows(states: seq<SoundState>, events: seq<Callback>, i: nat, j: nat)
    requires Run(states, events) && i <= j < |states|
    ensures Grows(states[i], states[j])
    decreases j
  {
    if i < j {
      RunGrows(states, events, i, j - 1);
      assert Happens(states[j - 1], events[j - 1], states[j]);
    }
  }

  /** Over every run from a bridge on memory `mem`, whatever order the callbacks come in: when every
      accepted request has committed, memory is `mem` after the accepted writes in acceptance order;
      each response sent at any time carries what its request would have read of it in that order
      unless a younger overlapping write overtook it; no response is taken back, and each request is
      answered at most once, exactly when performed and completed. */
  lemma {:induction false} RunIsSequential(states: seq<SoundState>, events: seq<Callback>, mem: Memory, n: nat)
    requires Run(states, events) && n < |states|
    requires states[0].initial == mem
    ensures var s := states[n];
      && s.initial == mem
      && ((forall k :: 0 <= k < |s.l.accepted| ==> k in s.l.committed) ==>
            && s.mem == Sequential(mem, s.l.accepted, |s.l.accepted|)
            && forall b :: 0 <= b < |mem| ==> HasItsByte(s.mem, mem, s.l.accepted, b))
      && (forall i :: 0 <= i < |s.sent| ==> Answers(s, i, mem))
      && (forall k :: 0 <= k < |s.l.accepted| ==>
            && multiset(s.l.answered)[k] <= 1
            && (k in s.l.answered <==> k in s.l.performed && k in s.l.completed))
    ensures states[n].sent <= states[|states| - 1].sent
  {
    var s := states[n];
    RunGrows(states, events, 0, n);
    RunGrows(states, events, n, |states| - 1);
    if forall k :: 0 <= k < |s.l.accepted| ==> k in s.l.committed {
      AllCommittedMemory(s);
      forall b | 0 <= b < |mem| ensures HasItsByte(s.mem, mem, s.l.accepted, b) {
        ByteIsTheYoungestStores(mem, s.l.accepted, |s.l.accepted|, b);
      }
    }
    forall i | 0 <= i < |s.sent| ensures Answers(s, i, mem) {
      ResponseIsSequential(s, i);
      var k := s.l.answered[i];
      if InMemory(s.l.accepted[k], mem) { RegionCarriesBytes(s.l.accepted[k], Sequential(mem, s.l.accepted, k)); }
    }
    Unpack(s);
    forall k | 0 <= k < |s.l.accepted|
      ensures multiset(s.l.answered)[k] <= 1 && (k in s.l.answered <==> k in s.l.performed && k in s.l.completed)
    {
      AnsweredIffPerformedAndCompleted(s.table, s.l, k);
    }
  }

  /** The byte is what the youngest accepted store to it made of the bytes it would find in acceptance
      order, and what memory started with if there is none. */
  ghost predicate HasItsByte(now: Memory, mem: Memory, accepted: seq<Packet>, b: nat) {
    var w := Youngest(mem, accepted, |accepted|, b);
    && b < |now| && b < |mem|
    && now[b] == if w == |accepted| then mem[b]
                 else accepted[w].effect(Region(accepted[w], Sequential(mem, accepted, w)))[b - accepted[w].addr]
  }

  /** The i-th response is the answer acceptance order asks for, byte by byte, unless overtaken. */
  ghost predicate Answers(s: SoundState, i: nat, mem: Memory)
    requires i < |s.sent|
  {
    && i < |s.l.answered| && |s.l.ids| == |s.l.accepted|
    && var n := s.l.answered[i];
    && n < |s.l.accepted| && s.sent[i].id == s.l.ids[n]
    && exists j :: (0 <= j < |s.l.performed| && s.l.performed[j] == n
      && (InMemory(s.l.accepted[n], mem) && !Overtaken(s.l.accepted, s.l.performed[..j], n) ==>
            CarriesBytes(s.sent[i].data, s.l.accepted[n], Sequential(mem, s.l.accepted, n))))
  }

  // ---- what holds between callbacks ---------------------------------------------------------------

  /** The i-th response answers a performed request and carries what that request would have read in
      acceptance order, unless a younger overlapping write was performed before it. */
  lemma ResponseIsSequential(s: SoundState, i: nat)
    requires i < |s.sent|
    ensures |s.sent| == |s.l.answered| && |s.l.ids| == |s.l.accepted|
    ensures var n := s.l.answered[i]; n < |s.l.accepted| && s.sent[i].id == s.l.ids[n]
    ensures exists j :: 0 <= j < |s.l.performed| && s.l.performed[j] == s.l.answered[i]
    ensures forall j :: 0 <= j < |s.l.performed| && s.l.performed[j] == s.l.answered[i] ==>
      var n := s.l.answered[i];
      InMemory(s.l.accepted[n], s.initial) && !Overtaken(s.l.accepted, s.l.performed[..j], n) ==>
        s.sent[i].data == Region(s.l.accepted[n], Sequential(s.initial, s.l.accepted, n))
  {
    Unpack(s);
    assert s.l.answered[i] in s.l.performed;
    forall j | 0 <= j < |s.l.performed| && s.l.performed[j] == s.l.answered[i]
      && InMemory(s.l.accepted[s.l.performed[j]], s.initial)
      && !Overtaken(s.l.accepted, s.l.performed[..j], s.l.performed[j])
      ensures s.sent[i].data == Region(s.l.accepted[s.l.answered[i]], Sequential(s.initial, s.l.accepted, s.l.answered[i]))
    {
      assert Found(s.initial, s.l.accepted, s.l.performed, s.seen, j);
      ReadIsSequential(s.initial, s.l.accepted, s.l.performed, j);
    }
  }

  /** When every accepted request has committed, memory is the writes of this bridge in acceptance
      order, whatever order the commits came in. */
  lemma AllCommittedMemory(s: SoundState)
    requires Quiescent(s.table)
    requires forall k :: 0 <= k < |s.l.accepted| ==> k in s.l.committed
    ensures s.mem == Sequential(s.initial, s.l.accepted, |s.l.accepted|)
  {
    Unpack(s);
    if |s.l.accepted| > 0 { CommittedPrefixIsPerformed(s.table, s.l, |s.l.accepted| - 1); }
    MemoryIsSequential(s.initial, s.l.accepted, s.l.performed);
  }
}

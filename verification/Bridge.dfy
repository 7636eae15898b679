/** The gem5 bridge itself: the callbacks that mutate the transaction table, with the mutual
    recursion of performData and releaseHeldBack and the packets a response may let back in. */
module Bridge {
  import opened BridgeOrder
  import opened BridgeTable

  /** What a callback answers; Panic stands for a panic_if that fires, with nothing changed. */
  datatype Verdict = Fine | Panic

  /** Insertion by acceptance order, one step of sorting the held list. */
  function InsertBySeq(table: Table, list: seq<nat>, id: nat): (r: seq<nat>)
    requires id in table && forall k :: k in list ==> k in table
    ensures forall k :: k in r <==> k in list || k == id
    ensures SortedBySeq(table, list) ==> SortedBySeq(table, r)
  {
    if list == [] then [id]
    else if table[id].seqNo <= table[list[0]].seqNo then [id] + list
    else
      var rest := InsertBySeq(table, list[1..], id);
      assert SortedBySeq(table, list) ==> forall k :: k in rest ==> table[list[0]].seqNo <= table[k].seqNo by {
        forall k | SortedBySeq(table, list) && k in list[1..] ensures table[list[0]].seqNo <= table[k].seqNo {
          var i :| 1 <= i < |list| && list[i] == k;
        }
      }
      [list[0]] + rest
  }

  ghost predicate SortedBySeq(table: Table, list: seq<nat>)
    requires forall k :: k in list ==> k in table
  {
    forall i, j :: 0 <= i < j < |list| ==> table[list[i]].seqNo <= table[list[j]].seqNo
  }

  class Bridge {
    var table: Table            // pending_requests
    var nextSeq: nat
    var nextId: nat             // the id generator, shared with other components
    var mem: Memory
    var sent: seq<Response>     // responses sent to the CPU
    var refused: seq<Packet>    // packets whose senders wait for a retry
    var heldBackOps: nat

    ghost var state: SoundState

    ghost predicate Mirrors()
      reads this
    {
      && state.table == table && state.mem == mem && state.sent == sent
      && nextSeq == |state.l.accepted| && nextId == state.nextId
    }

    /** Between callbacks. */
    ghost predicate Valid()
      reads this
    {
      Mirrors() && Quiescent(table)
    }

    constructor (mem: Memory)
      ensures Valid() && state == State(mem, map[], Ledger([], [], {}, {}, [], []), mem, map[], [], 0)
    {
      this.mem := mem;
      table, nextSeq, nextId, sent, refused, heldBackOps := map[], 0, 0, [], [], 0;
      state := State(mem, map[], Ledger([], [], {}, {}, [], []), mem, map[], [], 0);
    }

    /** submit: the id generator never repeats an id; other components draw from it in between. */
    method Submit(pkt: Packet) returns (id: nat)
      requires Mirrors()
      modifies this`table, this`nextSeq, this`nextId, this`state
      ensures Mirrors() && id == old(nextId) < nextId
      ensures state == Accepted(old(state), pkt, nextId)
    {
      id := nextId;
      var drawnByOthers :| 0 <= drawnByOthers;
      nextId := nextId + 1 + drawnByOthers;
      table := table[id := Txn(pkt, nextSeq, false, false, false, [])];
      nextSeq := nextSeq + 1;
      state := Accepted(state, pkt, nextId);
    }

    /** accessTiming on a cacheable packet; `blocked` is the L1's answer to portBlocked. A refused
        packet leaves no trace but its retry. */
    method AccessTiming(pkt: Packet, blocked: bool) returns (accepted: bool)
      requires Mirrors()
      modifies this`table, this`nextSeq, this`nextId, this`state, this`refused
      ensures Mirrors() && accepted == !blocked
      ensures accepted ==> old(nextId) < nextId
      ensures accepted ==> state == Accepted(old(state), pkt, nextId) && refused == old(refused)
      ensures !accepted ==> state == old(state) && refused == old(refused) + [pkt]
      ensures Happens(old(state), Access(pkt, blocked), state) && (old(Valid()) ==> Valid())
    {
      if blocked {
        refused := refused + [pkt];
        return false;
      }
      var id := Submit(pkt);
      accepted := true;
    }

    /** retryBlockedPorts: if the L1 is not blocked one waiting sender is told to retry, and may
        re-enter accessTiming before this returns. `portBlocked` is what portBlocked() answers. */
    method RetryBlockedPorts() returns (portBlocked: bool, told: bool)
      requires Mirrors()
      modifies this`table, this`nextSeq, this`nextId, this`state, this`refused
      ensures Mirrors() && Continues(old(state), state)
      ensures forall k :: Runnable(state.table, k) ==> Runnable(old(state).table, k)
      ensures Held(state.table) == Held(old(state).table)
      ensures told <==> !portBlocked && old(refused) != []
      ensures !told ==> refused == old(refused) && state == old(state)
      ensures told && state != old(state) ==> refused == old(refused)[1..] && old(nextId) < nextId
      ensures told && state != old(state) ==> state == Accepted(old(state), old(refused)[0], nextId)
      ensures told && state == old(state) ==> refused == old(refused)[1..] + [old(refused)[0]]
    {
      portBlocked := *;
      told := false;
      if portBlocked || refused == [] { return; }
      told := true;
      var pkt := refused[0];
      refused := refused[1..];
      var blockedAgain: bool := *;
      var accepted := AccessTiming(pkt, blockedAgain);
    }

    /** respond. The caller has recorded the answer in `state`; what is left is to erase the entry,
        send the packet and tell a waiting port. */
    method Respond(id: nat)
      requires id in table && state.table == table - {id} && state.mem == mem
      requires state.sent == sent + [Response(id, table[id].data)]
      requires nextSeq == |state.l.accepted| && nextId == state.nextId
      modifies this`table, this`nextSeq, this`nextId, this`state, this`refused, this`sent
      ensures Mirrors() && Continues(old(state), state)
      ensures forall k :: Runnable(state.table, k) ==> Runnable(old(state).table, k)
      ensures Held(state.table) == Held(old(state).table)
      ensures sent == old(sent) + [Response(id, old(table)[id].data)]
    {
      var txn := table[id];
      table := table - {id};
      sent := sent + [Response(id, txn.data)];
      var blocked, told := RetryBlockedPorts();
    }

    /** The first half of performData: the data operation, and the response if the completion is
        already there. */
    method AccessMemory(id: nat)
      requires Mirrors() && Runnable(state.table, id)
      modifies this
      ensures Mirrors() && Continues(Performed(old(state), id), state)
      ensures forall k :: Runnable(state.table, k) ==> Runnable(Performed(old(state), id).table, k)
      ensures Held(state.table) == Held(Performed(old(state), id).table)
      ensures var pkt := old(state).table[id].pkt;
        && (Stores(pkt, old(mem)) ==> CarriesBytes(pkt.effect(Region(pkt, old(mem))), pkt, mem))
        && |mem| == |old(mem)|
        && forall b :: 0 <= b < |mem| && !(Stores(pkt, old(mem)) && Covers(pkt, b)) ==> mem[b] == old(mem)[b]
    {
      var txn := table[id];
      state := Performed(state, id);
      var data := Region(txn.pkt, mem);
      StoreLeavesItsEffect(txn.pkt, mem);
      mem := Apply(txn.pkt, mem);
      table := table[id := txn.(dataDone := true, data := data)];
      if txn.completionArrived {
        assert state.table == table - {id};
        Respond(id);
      }
    }

    /** performData. Afterwards this request is performed; if it was a write, everything it had held
        back and that is now free has been performed too. */
    method PerformData(id: nat)
      requires Mirrors() && Runnable(state.table, id)
      modifies this
      ensures Mirrors() && Continues(Performed(old(state), id), state)
      ensures Held(state.table) <= Held(old(state).table) - {id}
      ensures old(state).table[id].pkt.isWrite ==> Quiescent(state.table)
      ensures !old(state).table[id].pkt.isWrite ==>
        forall k :: Runnable(state.table, k) ==> k != id && Runnable(old(state).table, k)
      decreases Held(state.table), 0
    {
      var isWrite := table[id].pkt.isWrite;
      AccessMemory(id);
      if isWrite { ReleaseHeldBack(); }
    }

    /** The held list, oldest first. */
    method CollectHeld() returns (held: seq<nat>)
      ensures forall k :: k in held <==> k in Held(table)
      ensures SortedBySeq(table, held)
    {
      held := [];
      var ids := table.Keys;
      while ids != {}
        invariant ids <= table.Keys
        invariant forall k :: k in held <==> k in Held(table) && k !in ids
        invariant SortedBySeq(table, held)
        decreases |ids|
      {
        var id :| id in ids;
        if table[id].committed && !table[id].dataDone { held := InsertBySeq(table, held, id); }
        ids := ids - {id};
      }
    }

    method BlockedByOlderWrite(txn: Txn) returns (blocked: bool)
      ensures blocked <==> Blocked(table, txn)
    {
      var ids := table.Keys;
      while ids != {}
        invariant ids <= table.Keys
        invariant forall k :: k in table && k !in ids ==> !BlocksIt(table[k], txn)
        decreases |ids|
      {
        var id :| id in ids;
        if BlocksIt(table[id], txn) { return true; }
        ids := ids - {id};
      }
      blocked := false;
    }

    /** releaseHeldBack: performing one may release, respond and re-enter; each id is looked up again.
        When it returns nothing runnable is left. */
    method ReleaseHeldBack()
      requires Mirrors()
      modifies this
      ensures Mirrors() && Quiescent(state.table) && Continues(old(state), state)
      ensures Held(state.table) <= Held(old(state).table)
      decreases Held(state.table), 1
    {
      var held := CollectHeld();
      var i := 0;
      while i < |held|
        invariant i <= |held|
        invariant Mirrors() && Continues(old(state), state)
        invariant Held(state.table) <= Held(old(state).table)
        invariant forall k :: k in held ==> k in Held(old(state).table)
        invariant forall k :: Runnable(state.table, k) ==> k in held[i..]
      {
        var id := held[i];
        if id in table && !table[id].dataDone {
          assert id in Held(old(state).table);
          StillCommitted(old(state), id, state);
          var blocked := BlockedByOlderWrite(table[id]);
          if !blocked { PerformData(id); }
        }
        i := i + 1;
      }
    }

    /** onCommit. */
    method OnCommit(id: nat, address: nat) returns (verdict: Verdict)
      requires Valid()
      modifies this
      ensures Valid()
      ensures verdict == if CommitPanics(old(state), id, address) then Panic else Fine
      ensures Happens(old(state), Commits(id, address), state)
    {
      if id !in table || table[id].committed || table[id].pkt.addr != address { return Panic; }
      state := Committed(state, id);
      table := table[id := table[id].(committed := true)];
      verdict := Fine;
      var blocked := BlockedByOlderWrite(table[id]);
      if blocked {
        heldBackOps := heldBackOps + 1;
        return;
      }
      PerformDataWhenOnlyOne(id);
    }

    /** performData when nothing else is runnable leaves nothing runnable. */
    method PerformDataWhenOnlyOne(id: nat)
      requires Mirrors() && Runnable(state.table, id)
      requires forall k :: k != id ==> !Runnable(state.table, k)
      modifies this
      ensures Valid() && Continues(old(state), state)
    {
      PerformData(id);
    }

    /** cacheSimCallback: the engine's completion of a request. A repeated completion of a held-back
        request changes nothing. */
    method CacheSimCallback(id: nat) returns (verdict: Verdict)
      requires Valid()
      modifies this
      ensures Valid()
      ensures verdict == if CompletePanics(old(state), id) then Panic else Fine
      ensures Happens(old(state), Completes(id), state)
      ensures verdict.Fine? && old(table)[id].dataDone ==> sent == old(sent) + [Response(id, old(table)[id].data)]
    {
      if id !in table || !table[id].committed { return Panic; }
      verdict := Fine;
      NoAnswerWaits(state, id);
      if table[id].completionArrived { return; }
      state := Completed(state, id);
      if !table[id].dataDone {
        table := table[id := table[id].(completionArrived := true)];
        return;
      }
      Respond(id);
    }
  }
}

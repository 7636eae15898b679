/** The bus arbiters (Arbiter, TDMArbiter, RRArbiter, FCFSArbiter): elections over the senders'
    transmit buffers, and what they promise over whole runs. */
module Election {
  import opened Wrappers
  import opened Sequences
  import opened Messages

  /** The initial best cycle of every election: a message stamped with it is never elected. */
  const NEVER: nat := 0xFFFF_FFFF_FFFF_FFFF

  type Buffers = seq<seq<Message>>

  /** Whose messages an election considers: one owner's (RR, TDM) or everyone's (FCFS). */
  datatype Who = Anyone | Owner(id: int)

  datatype Place = Place(buf: nat, idx: nat)

  predicate Matches(m: Message, who: Who) { who.Anyone? || m.owner == who.id }

  /** findMessage; the length of the buffer when there is none. */
  function FirstMatch(buffer: seq<Message>, who: Who): (k: nat)
    ensures k <= |buffer|
    ensures forall i :: 0 <= i < k ==> !Matches(buffer[i], who)
    ensures k < |buffer| ==> Matches(buffer[k], who)
  {
    if buffer == [] || Matches(buffer[0], who) then 0 else 1 + FirstMatch(buffer[1..], who)
  }

  /** The cycle a buffer bids with. */
  function Bid(buffer: seq<Message>, who: Who): nat {
    var k := FirstMatch(buffer, who);
    if k < |buffer| then buffer[k].cycle else NEVER
  }

  /** The lowest bid wins, the earlier buffer on a tie. */
  ghost predicate Wins(bs: Buffers, who: Who, winner: Option<Place>) {
    match winner
    case None => forall i :: 0 <= i < |bs| ==> Bid(bs[i], who) >= NEVER
    case Some(p) =>
      && p.buf < |bs| && p.idx == FirstMatch(bs[p.buf], who) && Bid(bs[p.buf], who) < NEVER
      && (forall i :: 0 <= i < p.buf ==> Bid(bs[i], who) > Bid(bs[p.buf], who))
      && (forall i :: p.buf < i < |bs| ==> Bid(bs[i], who) >= Bid(bs[p.buf], who))
  }

  function Winner(bs: Buffers, who: Who): (winner: Option<Place>)
    ensures winner.Some? ==>
      && winner.value.buf < |bs| && Bid(bs[winner.value.buf], who) < NEVER
      && winner.value.idx == FirstMatch(bs[winner.value.buf], who) < |bs[winner.value.buf]|
  {
    if bs == [] then None
    else
      var n := |bs| - 1;
      var best := Winner(bs[..n], who);
      if Bid(bs[n], who) < (if best.Some? then Bid(bs[best.value.buf], who) else NEVER)
      then Some(Place(n, FirstMatch(bs[n], who))) else best
  }

  lemma {:induction false} WinnerWins(bs: Buffers, who: Who)
    ensures Wins(bs, who, Winner(bs, who))
  {
    if bs != [] { WinnerWins(bs[..|bs| - 1], who); }
  }

  lemma {:induction false} OneWinner(bs: Buffers, who: Who, winner: Option<Place>)
    requires Wins(bs, who, winner)
    ensures winner == Winner(bs, who)
  {
    WinnerWins(bs, who);
  }

  function Take(bs: Buffers, p: Place): Buffers
    requires p.buf < |bs| && p.idx < |bs[p.buf]|
  {
    bs[p.buf := bs[p.buf][..p.idx] + bs[p.buf][p.idx + 1..]]
  }

  /** electOldestOwned; with Anyone, FCFSArbiter::elect. */
  function Elect(bs: Buffers, who: Who): (r: (Option<Message>, Buffers))
    ensures |r.1| == |bs|
  {
    var winner := Winner(bs, who);
    if winner.Some? then (Some(bs[winner.value.buf][winner.value.idx]), Take(bs, winner.value)) else (None, bs)
  }

  /** A sender emits a message. */
  function Push(bs: Buffers, b: nat, m: Message): Buffers
    requires b < |bs|
  {
    bs[b := bs[b] + [m]]
  }

  function Bag(buffer: seq<Message>): multiset<Message> { multiset(buffer) }

  function All(bs: Buffers): multiset<Message> { Sum(bs, Bag) }

  lemma RemoveOne(buffer: seq<Message>, k: nat)
    requires k < |buffer|
    ensures Bag(buffer) == Bag(buffer[..k] + buffer[k + 1..]) + multiset{buffer[k]}
  {
    SplitAt(buffer, k);
  }

  lemma {:induction false} TakeRemovesOne(bs: Buffers, p: Place)
    requires p.buf < |bs| && p.idx < |bs[p.buf]|
    ensures All(bs) == All(Take(bs, p)) + multiset{bs[p.buf][p.idx]}
  {
    var Place(b, k) := p;
    RemoveOne(bs[b], k);
    var rest := bs[b][..k] + bs[b][k + 1..];
    SumUpdate(bs, b, rest, multiset{bs[b][k]}, Bag);
  }

  /** Each election removes exactly the message it returns, and nothing else moves. */
  lemma {:induction false} ElectionRemovesTheElected(bs: Buffers, who: Who)
    ensures var (got, after) := Elect(bs, who);
      match got
      case None => after == bs
      case Some(m) => Matches(m, who) && All(bs) == All(after) + multiset{m} && |All(after)| == |All(bs)| - 1
  {
    WinnerWins(bs, who);
    var winner := Winner(bs, who);
    if winner.Some? { TakeRemovesOne(bs, winner.value); }
  }

  // ---- one owner's view ---------------------------------------------------------------------------

  /** This owner's. */
  function From(who: Who): Message -> bool { (m: Message) => Matches(m, who) }

  lemma FilterWithout(buffer: seq<Message>, k: nat, who: Who)
    requires k < |buffer|
    ensures Filter(buffer[..k] + buffer[k + 1..], From(who)) == Filter(buffer[..k], From(who)) + Filter(buffer[k + 1..], From(who))
    ensures Filter(buffer, From(who)) == Filter(buffer[..k], From(who)) + (if Matches(buffer[k], who) then [buffer[k]] else [])
                                   + Filter(buffer[k + 1..], From(who))
  {
    SplitAt(buffer, k);
    FilterAround(buffer[..k], buffer[k], buffer[k + 1..], From(who));
  }

  lemma FilterFirst(buffer: seq<Message>, k: nat, who: Who)
    requires k < |buffer| && Matches(buffer[k], who) && forall i :: 0 <= i < k ==> !Matches(buffer[i], who)
    ensures Filter(buffer, From(who)) == [buffer[k]] + Filter(buffer[..k] + buffer[k + 1..], From(who))
  {
    FilterNone(buffer[..k], From(who));
    FilterWithout(buffer, k, who);
    Shift([buffer[k]], Filter(buffer[k + 1..], From(who)));
  }

  /** A buffer offers the first of its owner's messages. */
  lemma FilterOffers(buffer: seq<Message>, who: Who)
    ensures var k := FirstMatch(buffer, who);
      if k < |buffer| then Filter(buffer, From(who)) == [buffer[k]] + Filter(buffer[..k] + buffer[k + 1..], From(who))
      else Filter(buffer, From(who)) == []
  {
    var k := FirstMatch(buffer, who);
    if k < |buffer| { FilterFirst(buffer, k, who); } else { FilterNone(buffer, From(who)); }
  }

  lemma Shift(one: seq<Message>, rest: seq<Message>)
    ensures [] + one + rest == one + ([] + rest)
  {
  }

  function Project(bs: Buffers, who: Who): (p: Buffers)
    ensures |p| == |bs| && forall i :: 0 <= i < |p| ==> p[i] == Filter(bs[i], From(who))
  {
    seq(|bs|, i requires 0 <= i < |bs| => Filter(bs[i], From(who)))
  }

  lemma ProjectBids(buffer: seq<Message>, who: Who)
    ensures Bid(Filter(buffer, From(who)), who) == Bid(buffer, who)
    ensures FirstMatch(Filter(buffer, From(who)), who) == 0
  {
    FilterOffers(buffer, who);
    FilterIs(buffer, From(who));
  }

  lemma TakeProjects(bs: Buffers, p: Place, who: Who)
    requires p.buf < |bs| && p.idx == FirstMatch(bs[p.buf], who) < |bs[p.buf]|
    ensures Project(bs, who)[p.buf] != [] && Project(bs, who)[p.buf][0] == bs[p.buf][p.idx]
    ensures Take(Project(bs, who), Place(p.buf, 0)) == Project(Take(bs, p), who)
  {
    var mine, rest := Filter(bs[p.buf], From(who)), bs[p.buf][..p.idx] + bs[p.buf][p.idx + 1..];
    FilterOffers(bs[p.buf], who);
    ProjectUpdate(bs, p.buf, rest, who);
    assert mine[..0] + mine[1..] == Filter(rest, From(who));
  }

  lemma WinnerProjects(bs: Buffers, who: Who)
    ensures Winner(Project(bs, who), who) == if Winner(bs, who).Some? then Some(Place(Winner(bs, who).value.buf, 0)) else None
  {
    WinnerWins(bs, who);
    var winner, mine := Winner(bs, who), Project(bs, who);
    forall i | 0 <= i < |bs| ensures Bid(mine[i], who) == Bid(bs[i], who) && FirstMatch(mine[i], who) == 0 {
      ProjectBids(bs[i], who);
    }
    OneWinner(mine, who, if winner.Some? then Some(Place(winner.value.buf, 0)) else None);
  }

  /** An election of one owner sees and changes that owner's messages only. */
  lemma ElectionSeesItsOwner(bs: Buffers, who: Who)
    ensures Elect(Project(bs, who), who) == (Elect(bs, who).0, Project(Elect(bs, who).1, who))
  {
    WinnerProjects(bs, who);
    if Winner(bs, who).Some? { TakeProjects(bs, Winner(bs, who).value, who); }
  }

  lemma OthersElectionIsUnseen(bs: Buffers, other: int, c: int)
    requires other != c
    ensures Project(Elect(bs, Owner(other)).1, Owner(c)) == Project(bs, Owner(c))
  {
    WinnerWins(bs, Owner(other));
    var winner := Winner(bs, Owner(other));
    if winner.Some? {
      var Place(b, k) := winner.value;
      FilterWithout(bs[b], k, Owner(c));
      ProjectUpdate(bs, b, bs[b][..k] + bs[b][k + 1..], Owner(c));
    }
  }

  lemma ProjectUpdate(bs: Buffers, b: nat, buffer: seq<Message>, who: Who)
    requires b < |bs|
    ensures Project(bs[b := buffer], who) == Project(bs, who)[b := Filter(buffer, From(who))]
    ensures Filter(buffer, From(who)) == Filter(bs[b], From(who)) ==> Project(bs[b := buffer], who) == Project(bs, who)
  {
  }

  lemma PushProjects(bs: Buffers, b: nat, m: Message, who: Who)
    requires b < |bs|
    ensures Project(Push(bs, b, m), who) == if Matches(m, who) then Push(Project(bs, who), b, m) else Project(bs, who)
  {
    FilterLast(bs[b], m, From(who));
    ProjectUpdate(bs, b, bs[b] + [m], who);
  }

  // ---- the order of service -----------------------------------------------------------------------

  function Size(bs: Buffers): nat { |All(bs)| }

  /** A message and the buffer it waits in. */
  datatype Pending = Pending(m: Message, buf: nat)

  /** The messages in the order repeated elections serve them. */
  function Waiting(bs: Buffers, who: Who): (ps: seq<Pending>)
    decreases Size(bs)
  {
    ElectionRemovesTheElected(bs, who);
    var winner := Winner(bs, who);
    if winner.None? then []
    else [Pending(bs[winner.value.buf][winner.value.idx], winner.value.buf)] + Waiting(Take(bs, winner.value), who)
  }

  function MessagesOf(ps: seq<Pending>): (ms: seq<Message>)
    ensures |ms| == |ps| && forall i :: 0 <= i < |ms| ==> ms[i] == ps[i].m
  {
    seq(|ps|, i requires 0 <= i < |ps| => ps[i].m)
  }

  function Served(bs: Buffers, who: Who): seq<Message> { MessagesOf(Waiting(bs, who)) }

  lemma ServedFirst(bs: Buffers, who: Who)
    ensures var (got, after) := Elect(bs, who);
      Served(bs, who) == if got.Some? then [got.value] + Served(after, who) else []
  {
  }

  lemma {:induction false} WaitingSeesItsOwner(bs: Buffers, who: Who)
    ensures Waiting(Project(bs, who), who) == Waiting(bs, who)
    decreases Size(bs)
  {
    ElectionSeesItsOwner(bs, who);
    ElectionRemovesTheElected(bs, who);
    WinnerProjects(bs, who);
    var winner := Winner(bs, who);
    if winner.Some? {
      TakeProjects(bs, winner.value, who);
      WaitingSeesItsOwner(Take(bs, winner.value), who);
    }
  }

  /** An election prefers the lower cycle, and then the earlier buffer. */
  predicate Before(x: Pending, y: Pending) { x.m.cycle < y.m.cycle || (x.m.cycle == y.m.cycle && x.buf < y.buf) }

  /** Behind everything that does not come after it, in front of the rest. */
  function Insert(ps: seq<Pending>, x: Pending): seq<Pending> {
    if ps == [] || Before(x, ps[0]) then [x] + ps else [ps[0]] + Insert(ps[1..], x)
  }

  /** A sender's stamps do not go back: the message is no older than those of its owner that wait in
      the same buffer. */
  ghost predicate Behind(buffer: seq<Message>, who: Who, m: Message) {
    && Matches(m, who) && m.cycle < NEVER
    && forall j :: 0 <= j < |buffer| && Matches(buffer[j], who) ==> buffer[j].cycle <= m.cycle
  }

  lemma {:induction false} LaterBids(buffer: seq<Message>, m: Message, who: Who)
    requires Matches(m, who)
    ensures var more := buffer + [m];
      if FirstMatch(buffer, who) < |buffer| then FirstMatch(more, who) == FirstMatch(buffer, who) && Bid(more, who) == Bid(buffer, who)
      else FirstMatch(more, who) == |buffer| && Bid(more, who) == m.cycle
  {
    var k := FirstMatch(buffer, who);
    assert Matches((buffer + [m])[k], who);
  }

  /** Its buffer had nothing of its owner, and it beats the winner. */
  ghost predicate TakesTheLead(bs: Buffers, who: Who, b: nat, m: Message)
    requires b < |bs|
  {
    var winner := Winner(bs, who);
    winner.None?
    || (FirstMatch(bs[b], who) == |bs[b]|
        && Before(Pending(m, b), Pending(bs[winner.value.buf][winner.value.idx], winner.value.buf)))
  }

  /** The election before and after a message joins. */
  lemma {:induction false} JoinerWinsIf(bs: Buffers, who: Who, b: nat, m: Message)
    requires b < |bs| && Behind(bs[b], who, m)
    ensures Winner(Push(bs, b, m), who) == if TakesTheLead(bs, who, b, m) then Some(Place(b, |bs[b]|)) else Winner(bs, who)
  {
    LaterBids(bs[b], m, who);
    WinnerWins(bs, who);
    if TakesTheLead(bs, who, b, m) {
      if Winner(bs, who).None? { assert Bid(bs[b], who) >= NEVER; }
      OneWinner(Push(bs, b, m), who, Some(Place(b, |bs[b]|)));
    } else {
      OneWinner(Push(bs, b, m), who, Winner(bs, who));
    }
  }

  /** A message that does not take the lead does not come before the winner. */
  lemma {:induction false} WinnerStaysFirst(bs: Buffers, who: Who, b: nat, m: Message)
    requires b < |bs| && Behind(bs[b], who, m) && !TakesTheLead(bs, who, b, m)
    ensures var p := Winner(bs, who).value; !Before(Pending(m, b), Pending(bs[p.buf][p.idx], p.buf))
  {
    WinnerWins(bs, who);
    if FirstMatch(bs[b], who) < |bs[b]| { assert Bid(bs[b], who) <= m.cycle; }
  }

  /** A message that joins is served behind all that do not come after it by cycle and buffer, and
      before the rest; the others keep their order. */
  lemma {:induction false} JoinsInOrder(bs: Buffers, who: Who, b: nat, m: Message)
    requires b < |bs| && Behind(bs[b], who, m)
    ensures Waiting(Push(bs, b, m), who) == Insert(Waiting(bs, who), Pending(m, b))
    decreases Size(bs)
  {
    JoinerWinsIf(bs, who, b, m);
    if TakesTheLead(bs, who, b, m) {
      PushThenTake(bs, b, m);
    } else {
      var p := Winner(bs, who).value;
      WinnerStaysFirst(bs, who, b, m);
      TakeThenPush(bs, p, b, m);
      BehindStays(bs, p, who, b, m);
      ElectionRemovesTheElected(bs, who);
      JoinsInOrder(Take(bs, p), who, b, m);
    }
  }

  lemma TakeThenPush(bs: Buffers, p: Place, b: nat, m: Message)
    requires p.buf < |bs| && p.idx < |bs[p.buf]| && b < |bs|
    ensures Take(Push(bs, b, m), p) == Push(Take(bs, p), b, m)
    ensures Push(bs, b, m)[p.buf][p.idx] == bs[p.buf][p.idx]
  {
    if p.buf == b {
      assert (bs[b] + [m])[..p.idx] + (bs[b] + [m])[p.idx + 1..] == bs[b][..p.idx] + bs[b][p.idx + 1..] + [m];
    }
  }

  lemma PushThenTake(bs: Buffers, b: nat, m: Message)
    requires b < |bs|
    ensures Push(bs, b, m)[b][|bs[b]|] == m && Take(Push(bs, b, m), Place(b, |bs[b]|)) == bs
  {
    assert (bs[b] + [m])[..|bs[b]|] + (bs[b] + [m])[|bs[b]| + 1..] == bs[b];
  }

  lemma BehindStays(bs: Buffers, p: Place, who: Who, b: nat, m: Message)
    requires p.buf < |bs| && p.idx < |bs[p.buf]| && b < |bs| && Behind(bs[b], who, m)
    ensures Behind(Take(bs, p)[b], who, m)
  {
  }

  /** Nothing comes before what stands in front of it. */
  ghost predicate Sorted(ps: seq<Pending>) {
    forall i, j {:trigger Before(ps[j], ps[i])} :: 0 <= i < j < |ps| ==> !Before(ps[j], ps[i])
  }

  /** Where the joining message goes. */
  lemma {:induction false} InsertSplits(ps: seq<Pending>, x: Pending) returns (q: nat)
    ensures q <= |ps| && Insert(ps, x) == ps[..q] + [x] + ps[q..]
    ensures (q < |ps| ==> Before(x, ps[q])) && forall i :: 0 <= i < q ==> !Before(x, ps[i])
  {
    if ps == [] || Before(x, ps[0]) {
      q := 0;
    } else {
      var r := InsertSplits(ps[1..], x);
      q := r + 1;
      assert ps == [ps[0]] + ps[1..];
    }
  }

  lemma {:induction false} InsertKeepsSorted(ps: seq<Pending>, x: Pending)
    requires Sorted(ps)
    ensures Sorted(Insert(ps, x))
  {
    var q := InsertSplits(ps, x);
    var more := ps[..q] + [x] + ps[q..];
    forall i, j | 0 <= i < j < |more| ensures !Before(more[j], more[i]) {
      assert q < |ps| && j > q ==> !Before(more[j], ps[q]) by { if j > q + 1 { assert more[j] == ps[j - 1]; } }
    }
  }

  lemma SortedTail(ps: seq<Pending>)
    requires Sorted(ps) && ps != []
    ensures Sorted(ps[1..])
  {
  }

  /** Every buffer was filled in the order of emission. */
  ghost predicate EmittedInOrder(buffer: seq<Message>) {
    forall j, k :: 0 <= j <= k < |buffer| ==> buffer[j].cycle <= buffer[k].cycle < NEVER
  }

  ghost predicate Emitted(bs: Buffers) {
    forall i :: 0 <= i < |bs| ==> EmittedInOrder(bs[i])
  }

  /** The elected message is the oldest of its owner over all buffers. */
  lemma ElectedIsOldest(bs: Buffers, who: Who)
    requires Emitted(bs) && Elect(bs, who).0.Some?
    ensures var m := Elect(bs, who).0.value;
      forall i, j :: 0 <= i < |bs| && 0 <= j < |bs[i]| && Matches(bs[i][j], who) ==> m.cycle <= bs[i][j].cycle
  {
    ElectedIsFirst(bs, who);
  }

  /** Nothing of this owner comes before x. */
  ghost predicate NoneBefore(bs: Buffers, who: Who, x: Pending) {
    forall i, j :: 0 <= i < |bs| && 0 <= j < |bs[i]| && Matches(bs[i][j], who) ==> !Before(Pending(bs[i][j], i), x)
  }

  lemma ElectedIsFirst(bs: Buffers, who: Who)
    requires Emitted(bs) && Winner(bs, who).Some?
    ensures var p := Winner(bs, who).value; NoneBefore(bs, who, Pending(bs[p.buf][p.idx], p.buf))
  {
    WinnerWins(bs, who);
    var p := Winner(bs, who).value;
    forall i, j | 0 <= i < |bs| && 0 <= j < |bs[i]| && Matches(bs[i][j], who)
      ensures !Before(Pending(bs[i][j], i), Pending(bs[p.buf][p.idx], p.buf))
    {
      assert Bid(bs[i], who) <= bs[i][j].cycle;
      assert i < p.buf || i == p.buf || Bid(bs[i], who) >= Bid(bs[p.buf], who);
    }
  }

  lemma NoneBeforeStays(bs: Buffers, p: Place, who: Who, x: Pending)
    requires p.buf < |bs| && p.idx < |bs[p.buf]| && NoneBefore(bs, who, x)
    ensures NoneBefore(Take(bs, p), who, x)
  {
    var after: Buffers := Take(bs, p);
    forall i, j | 0 <= i < |after| && 0 <= j < |after[i]| && Matches(after[i][j], who)
      ensures !Before(Pending(after[i][j], i), x)
    {
      assert after[i][j] == bs[i][if i == p.buf && j >= p.idx then j + 1 else j];
    }
  }

  lemma {:induction false} NoneBeforeServed(bs: Buffers, who: Who, x: Pending)
    requires NoneBefore(bs, who, x)
    ensures forall k :: 0 <= k < |Waiting(bs, who)| ==> !Before(Waiting(bs, who)[k], x)
    decreases Size(bs)
  {
    ElectionRemovesTheElected(bs, who);
    if Winner(bs, who).Some? {
      NoneBeforeStays(bs, Winner(bs, who).value, who, x);
      NoneBeforeServed(Take(bs, Winner(bs, who).value), who, x);
    }
  }

  lemma EmittedStays(bs: Buffers, p: Place)
    requires Emitted(bs) && p.buf < |bs| && p.idx < |bs[p.buf]|
    ensures Emitted(Take(bs, p))
  {
    var after: Buffers := Take(bs, p);
    forall i | 0 <= i < |after| ensures EmittedInOrder(after[i]) {
      assert EmittedInOrder(bs[i]);
      forall j, k | 0 <= j <= k < |after[i]| ensures (after[i][j].cycle <= after[i][k].cycle < NEVER) {
        var x, y := if i == p.buf && j >= p.idx then j + 1 else j, if i == p.buf && k >= p.idx then k + 1 else k;
        assert after[i][j] == bs[i][x] && after[i][k] == bs[i][y];
      }
    }
  }

  lemma SortedWithFirst(x: Pending, ps: seq<Pending>)
    requires Sorted(ps) && forall k :: 0 <= k < |ps| ==> !Before(ps[k], x)
    ensures Sorted([x] + ps)
  {
  }

  /** An owner is served by cycle, and by buffer within a cycle. */
  lemma {:induction false} ServedInOrder(bs: Buffers, who: Who)
    requires Emitted(bs)
    ensures Sorted(Waiting(bs, who))
    decreases Size(bs)
  {
    ElectionRemovesTheElected(bs, who);
    if Winner(bs, who).Some? {
      var p := Winner(bs, who).value;
      var x := Pending(bs[p.buf][p.idx], p.buf);
      ElectedIsFirst(bs, who);
      NoneBeforeStays(bs, p, who, x);
      NoneBeforeServed(Take(bs, p), who, x);
      EmittedStays(bs, p);
      ServedInOrder(Take(bs, p), who);
      SortedWithFirst(x, Waiting(Take(bs, p), who));
    }
  }

  ghost predicate InCycleOrder(ms: seq<Message>) {
    forall i, j :: 0 <= i < j < |ms| ==> ms[i].cycle <= ms[j].cycle
  }

  lemma {:induction false} AllEmpty(bs: Buffers)
    requires forall i :: 0 <= i < |bs| ==> bs[i] == []
    ensures All(bs) == multiset{}
  {
    if bs != [] { AllEmpty(bs[..|bs| - 1]); }
  }

  lemma NothingOffered(bs: Buffers, who: Who)
    requires Emitted(bs) && Winner(bs, who).None?
    ensures All(Project(bs, who)) == multiset{}
  {
    WinnerWins(bs, who);
    forall i | 0 <= i < |bs| ensures Project(bs, who)[i] == [] {
      assert Bid(bs[i], who) >= NEVER;
      FilterOffers(bs[i], who);
    }
    AllEmpty(Project(bs, who));
  }

  lemma FirstServed(bs: Buffers, who: Who)
    requires Winner(bs, who).Some?
    ensures var p := Winner(bs, who).value;
      multiset(Served(bs, who)) == multiset(Served(Take(bs, p), who)) + multiset{bs[p.buf][p.idx]}
  {
    ServedFirst(bs, who);
  }

  lemma FirstOffered(bs: Buffers, who: Who)
    requires Winner(bs, who).Some?
    ensures var p := Winner(bs, who).value;
      All(Project(bs, who)) == All(Project(Take(bs, p), who)) + multiset{bs[p.buf][p.idx]}
  {
    var Place(b, k) := Winner(bs, who).value;
    TakeProjects(bs, Place(b, k), who);
    TakeRemovesOne(Project(bs, who), Place(b, 0));
  }

  /** Each of an owner's messages is served once, wherever it sits. */
  lemma {:induction false} ServedAreTheOwners(bs: Buffers, who: Who)
    requires Emitted(bs)
    ensures multiset(Served(bs, who)) == All(Project(bs, who))
    decreases Size(bs)
  {
    var winner := Winner(bs, who);
    ElectionRemovesTheElected(bs, who);
    if winner.None? {
      NothingOffered(bs, who);
    } else {
      FirstServed(bs, who);
      FirstOffered(bs, who);
      EmittedStays(bs, winner.value);
      ServedAreTheOwners(Take(bs, winner.value), who);
    }
  }

  /** An owner's messages are served once each, by cycle of emission, wherever they sit. */
  lemma {:induction false} OwnerIsServedOldestFirst(bs: Buffers, who: Who)
    requires Emitted(bs)
    ensures multiset(Served(bs, who)) == All(Project(bs, who)) && InCycleOrder(Served(bs, who))
  {
    ServedAreTheOwners(bs, who);
    ServedInOrder(bs, who);
    SortedByCycle(Waiting(bs, who));
  }

  lemma SortedByCycle(ps: seq<Pending>)
    requires Sorted(ps)
    ensures InCycleOrder(MessagesOf(ps))
  {
    forall i, j | 0 <= i < j < |ps| ensures ps[i].m.cycle <= ps[j].m.cycle { assert !Before(ps[j], ps[i]); }
  }

  /** FCFS is a merge of the senders' buffers: everything is served once, by cycle of emission. */
  lemma {:induction false} FcfsMerges(bs: Buffers)
    requires Emitted(bs)
    ensures multiset(Served(bs, Anyone)) == All(bs) && InCycleOrder(Served(bs, Anyone))
  {
    OwnerIsServedOldestFirst(bs, Anyone);
    forall i | 0 <= i < |bs| ensures Project(bs, Anyone)[i] == bs[i] { FilterAll(bs[i], From(Anyone)); }
    assert Project(bs, Anyone) == bs;
  }

  /** An election fails exactly when the first message of every buffer is stamped 2^64 - 1 or none is
      there. */
  lemma MaximalStampIsNeverElected(bs: Buffers, who: Who)
    ensures Elect(bs, who).0.None? <==> forall i :: 0 <= i < |bs| ==> Bid(bs[i], who) >= NEVER
    ensures Elect(bs, who).0.Some? ==> Elect(bs, who).0.value.cycle < NEVER
  {
    WinnerWins(bs, who);
  }
}

/** The three policies over whole runs. */
module Arbitration {
  import opened Wrappers
  import opened Sequences
  import opened Messages
  import opened Election

  datatype Policy = Tdm(period: nat) | RoundRobin | Fcfs

  datatype Config = Config(policy: Policy, candidates: seq<int>)

  /** Without a candidate, or with period zero, the source divides by zero. */
  predicate Configured(a: Config) {
    (a.policy.Fcfs? || a.candidates != []) && (a.policy.Tdm? ==> a.policy.period > 0)
  }

  function Next(index: nat, n: nat): (next: nat)
    requires n > 0
  {
    (index + 1) % n
  }

  /** RRArbiter::elect with this many tries left. */
  function RrElect(candidates: seq<int>, index: nat, tries: nat, bs: Buffers): (nat, Option<Message>, Buffers)
    requires candidates != []
    decreases tries
  {
    if tries == 0 then (index, None, bs)
    else
      var next := Next(index, |candidates|);
      var (got, after) := Elect(bs, Owner(candidates[next]));
      if got.Some? then (next, got, after) else RrElect(candidates, next, tries - 1, bs)
  }

  /** TDMArbiter::elect. */
  function TdmElect(candidates: seq<int>, period: nat, index: nat, cycle: nat, bs: Buffers): (nat, Option<Message>, Buffers)
    requires candidates != [] && period > 0
  {
    if cycle % period != 0 then (index, None, bs)
    else
      var next := Next(index, |candidates|);
      var (got, after) := Elect(bs, Owner(candidates[next]));
      (next, got, after)
  }

  function ElectNow(a: Config, index: nat, cycle: nat, bs: Buffers): (nat, Option<Message>, Buffers)
    requires Configured(a)
  {
    match a.policy
    case Tdm(period) => TdmElect(a.candidates, period, index, cycle, bs)
    case RoundRobin => RrElect(a.candidates, index, |a.candidates|, bs)
    case Fcfs => var (got, after) := Elect(bs, Anyone); (index, got, after)
  }

  datatype Grant = Grant(cycle: nat, m: Message)

  datatype State = State(index: nat, buffers: Buffers, grants: seq<Grant>)

  datatype Event = Emit(b: nat, m: Message) | Elected(cycle: nat)

  function Step(a: Config, s: State, e: Event): State
    requires Configured(a)
  {
    match e
    case Emit(b, m) => if b < |s.buffers| then s.(buffers := Push(s.buffers, b, m)) else s
    case Elected(cycle) =>
      var (index, got, after) := ElectNow(a, s.index, cycle, s.buffers);
      State(index, after, if got.Some? then s.grants + [Grant(cycle, got.value)] else s.grants)
  }

  function RunAll(a: Config, s: State, events: seq<Event>): State
    requires Configured(a)
  {
    if events == [] then s else Step(a, RunAll(a, s, events[..|events| - 1]), events[|events| - 1])
  }

  lemma RunLast(a: Config, s: State, events: seq<Event>, e: Event)
    requires Configured(a)
    ensures RunAll(a, s, events + [e]) == Step(a, RunAll(a, s, events), e)
  {
    assert (events + [e])[..|events|] == events;
  }

  function GrantedTo(who: Who): Grant -> bool { (g: Grant) => Matches(g.m, who) }

  /** An owner's grants. */
  function GrantsTo(grants: seq<Grant>, who: Who): seq<Grant> { Filter(grants, GrantedTo(who)) }

  /** Whatever the policy, an election elects for somebody or leaves everything. */
  lemma {:induction false} RrElectsForSomebody(candidates: seq<int>, index: nat, tries: nat, bs: Buffers)
    requires candidates != []
    ensures var (next, got, after) := RrElect(candidates, index, tries, bs);
      if got.Some? then next < |candidates| && (got, after) == Elect(bs, Owner(candidates[next])) else after == bs
    decreases tries
  {
    if tries > 0 { RrElectsForSomebody(candidates, Next(index, |candidates|), tries - 1, bs); }
  }

  // ---- TDM isolation ------------------------------------------------------------------------------

  /** What one owner can see of a state: the slot, its own messages, its own grants. */
  function View(s: State, c: int): State { State(s.index, Project(s.buffers, Owner(c)), GrantsTo(s.grants, Owner(c))) }

  predicate IsMine(e: Event, c: int) { e.Elected? || e.m.owner == c }

  function Mine(events: seq<Event>, c: int): seq<Event> { Filter(events, (e: Event) => IsMine(e, c)) }

  lemma NoneOfAnother(bs: Buffers, c: int, other: int)
    requires c != other
    ensures Elect(Project(bs, Owner(c)), Owner(other)) == (None, Project(bs, Owner(c)))
  {
    var mine := Project(bs, Owner(c));
    forall i | 0 <= i < |mine| ensures Bid(mine[i], Owner(other)) >= NEVER {
      FilterIs(bs[i], From(Owner(c)));
      var k := FirstMatch(mine[i], Owner(other));
      assert k < |mine[i]| ==> Matches(mine[i][k], Owner(c));
    }
    OneWinner(mine, Owner(other), None);
  }

  lemma {:induction false} TdmElectionIsolated(a: Config, s: State, cycle: nat, c: int)
    requires Configured(a) && a.policy.Tdm?
    ensures View(Step(a, s, Elected(cycle)), c) == Step(a, View(s, c), Elected(cycle))
  {
    if cycle % a.policy.period == 0 {
      var owner := a.candidates[Next(s.index, |a.candidates|)];
      var got := Elect(s.buffers, Owner(owner)).0;
      ElectionRemovesTheElected(s.buffers, Owner(owner));
      if got.Some? { FilterLast(s.grants, Grant(cycle, got.value), GrantedTo(Owner(c))); }
      if owner == c {
        ElectionSeesItsOwner(s.buffers, Owner(c));
      } else {
        OthersElectionIsUnseen(s.buffers, owner, c);
        NoneOfAnother(s.buffers, c, owner);
      }
    }
  }

  lemma TdmStepIsolated(a: Config, s: State, e: Event, c: int)
    requires Configured(a) && a.policy.Tdm?
    ensures View(Step(a, s, e), c) == if IsMine(e, c) then Step(a, View(s, c), e) else View(s, c)
  {
    match e
    case Elected(cycle) => TdmElectionIsolated(a, s, cycle, c);
    case Emit(b, m) => if b < |s.buffers| { PushProjects(s.buffers, b, m, Owner(c)); }
  }

  /** An owner's view of a run is the run of its own view, without the others. */
  lemma {:induction false} TdmRunIsolated(a: Config, s: State, events: seq<Event>, c: int)
    requires Configured(a) && a.policy.Tdm?
    ensures View(RunAll(a, s, events), c) == RunAll(a, View(s, c), Mine(events, c))
    decreases |events|
  {
    if events != [] {
      var n := |events| - 1;
      TdmRunIsolated(a, s, events[..n], c);
      TdmStepIsolated(a, RunAll(a, s, events[..n]), events[n], c);
      if IsMine(events[n], c) {
        RunLast(a, View(s, c), Mine(events[..n], c), events[n]);
        assert Mine(events, c) == Mine(events[..n], c) + [events[n]];
      } else {
        assert Mine(events, c) == Mine(events[..n], c);
      }
    }
  }

  /** TDM isolation: in two runs with the same elections and the same messages of owner c, c's
      messages are granted at the same cycles in the same order, whatever the other owners send. */
  lemma {:induction false} TdmIsolatesOwners(a: Config, s1: State, events1: seq<Event>, s2: State, events2: seq<Event>, c: int)
    requires Configured(a) && a.policy.Tdm?
    requires View(s1, c) == View(s2, c) && Mine(events1, c) == Mine(events2, c)
    ensures GrantsTo(RunAll(a, s1, events1).grants, Owner(c)) == GrantsTo(RunAll(a, s2, events2).grants, Owner(c))
    ensures Project(RunAll(a, s1, events1).buffers, Owner(c)) == Project(RunAll(a, s2, events2).buffers, Owner(c))
  {
    TdmRunIsolated(a, s1, events1, c);
    TdmRunIsolated(a, s2, events2, c);
  }

  function Slots(events: seq<Event>, period: nat): nat
    requires period > 0
  {
    if events == [] then 0
    else
      var e := events[|events| - 1];
      Slots(events[..|events| - 1], period) + if e.Elected? && e.cycle % period == 0 then 1 else 0
  }

  /** The slots go round the candidates in order, one each period, used or not. */
  lemma {:induction false} TdmSlotsGoRound(a: Config, s: State, events: seq<Event>)
    requires Configured(a) && a.policy.Tdm? && s.index < |a.candidates|
    ensures RunAll(a, s, events).index < |a.candidates|
    ensures exists laps: nat ::
      s.index + Slots(events, a.policy.period) == laps * |a.candidates| + RunAll(a, s, events).index
    decreases |events|
  {
    var n := |a.candidates|;
    if events == [] {
      assert s.index + Slots(events, a.policy.period) == 0 * n + s.index;
    } else {
      var before := events[..|events| - 1];
      TdmSlotsGoRound(a, s, before);
      var laps: nat :| s.index + Slots(before, a.policy.period) == laps * n + RunAll(a, s, before).index;
      NextLap(s.index + Slots(before, a.policy.period), laps, n, RunAll(a, s, before).index);
    }
  }

  lemma NextLap(slots: nat, laps: nat, n: nat, index: nat)
    requires index < n && slots == laps * n + index
    ensures Next(index, n) < n && exists laps': nat :: slots + 1 == laps' * n + Next(index, n)
  {
    if index + 1 == n {
      assert slots + 1 == (laps + 1) * n + Next(index, n);
    } else {
      assert Next(index, n) == index + 1;
    }
  }

  // ---- first in, first granted --------------------------------------------------------------------

  /** The messages granted to an owner. */
  function Granted(grants: seq<Grant>, who: Who): (ms: seq<Message>)
    ensures |ms| == |GrantsTo(grants, who)|
  {
    var mine := GrantsTo(grants, who);
    seq(|mine|, i requires 0 <= i < |mine| => mine[i].m)
  }

  lemma GrantedLast(grants: seq<Grant>, g: Grant, who: Who)
    ensures Granted(grants + [g], who) == Granted(grants, who) + if Matches(g.m, who) then [g.m] else []
  {
    FilterLast(grants, g, GrantedTo(who));
  }

  function EmittedBy(e: Event, width: nat, who: Who): seq<Message> {
    if e.Emit? && e.b < width && Matches(e.m, who) then [e.m] else []
  }

  function Emitters(events: seq<Event>, width: nat, who: Who): seq<Message> {
    if events == [] then []
    else Emitters(events[..|events| - 1], width, who) + EmittedBy(events[|events| - 1], width, who)
  }

  /** The owners TDM and RR elect for, and everyone for FCFS. */
  predicate Fits(a: Config, who: Who) { a.policy.Fcfs? <==> who.Anyone? }

  /** The owner sends this message now. */
  predicate Sends(s: State, e: Event, who: Who) { e.Emit? && e.b < |s.buffers| && Matches(e.m, who) }

  /** No sender's stamps go back. */
  ghost predicate Forward(a: Config, s: State, events: seq<Event>, who: Who)
    requires Configured(a)
  {
    forall i :: 0 <= i < |events| ==> ForwardAt(RunAll(a, s, events[..i]), events[i], who)
  }

  ghost predicate ForwardAt(s: State, e: Event, who: Who) { Sends(s, e, who) ==> Behind(s.buffers[e.b], who, e.m) }

  /** Something of the owner's that waits comes after what it sends now: a younger message, or one of
      the same cycle in a later buffer. */
  ghost predicate Overtakes(s: State, e: Event, who: Who) {
    Sends(s, e, who) && !BeforeNone(Waiting(s.buffers, who), Pending(e.m, e.b))
  }

  /** What an owner was granted, then what it is still to be served. */
  function Line(s: State, who: Who): seq<Message> { Granted(s.grants, who) + Served(s.buffers, who) }

  lemma OneEarlier(a: Config, s: State, events: seq<Event>, who: Who, n: nat)
    requires Configured(a) && n <= |events| && Forward(a, s, events, who)
    ensures Forward(a, s, events[..n], who)
    ensures n < |events| ==> ForwardAt(RunAll(a, s, events[..n]), events[n], who)
  {
    forall i | 0 <= i < n ensures ForwardAt(RunAll(a, s, events[..n][..i]), events[..n][i], who) {
      assert events[..n][..i] == events[..i];
      assert ForwardAt(RunAll(a, s, events[..i]), events[i], who);
    }
  }

  /** An election serves this owner's next message or leaves its line as it was. */
  lemma {:induction false} ElectionServesNext(bs: Buffers, elected: Who, who: Who)
    requires elected == who || (elected.Owner? && who.Owner?)
    ensures var (got, after) := Elect(bs, elected);
      if got.Some? && Matches(got.value, who)
      then Waiting(bs, who) != [] && Waiting(bs, who)[0].m == got.value && Waiting(after, who) == Waiting(bs, who)[1..]
      else Waiting(after, who) == Waiting(bs, who)
  {
    ElectionRemovesTheElected(bs, elected);
    if elected != who {
      OthersElectionIsUnseen(bs, elected.id, who.id);
      WaitingSeesItsOwner(bs, who);
      WaitingSeesItsOwner(Elect(bs, elected).1, who);
    }
  }

  /** What an election does to an owner: nothing, or its next message is granted. */
  ghost predicate ServesNext(s: State, t: State, who: Who) {
    var (g, ps) := (Granted(s.grants, who), Waiting(s.buffers, who));
    || (Granted(t.grants, who) == g && Waiting(t.buffers, who) == ps)
    || (ps != [] && Granted(t.grants, who) == g + [ps[0].m] && Waiting(t.buffers, who) == ps[1..])
  }

  lemma {:induction false} ElectionStepServesNext(a: Config, s: State, cycle: nat, who: Who)
    requires Configured(a) && Fits(a, who)
    ensures ServesNext(s, Step(a, s, Elected(cycle)), who)
  {
    var (index, got, after) := ElectNow(a, s.index, cycle, s.buffers);
    if a.policy.RoundRobin? { RrElectsForSomebody(a.candidates, s.index, |a.candidates|, s.buffers); }
    if got.Some? {
      GrantedLast(s.grants, Grant(cycle, got.value), who);
      ElectionServesNext(s.buffers, if a.policy.Fcfs? then Anyone else Owner(a.candidates[index]), who);
    }
  }

  /** What a message sent does: it joins its owner's line by cycle and buffer. */
  lemma {:induction false} SendingJoins(a: Config, s: State, e: Event, who: Who)
    requires Configured(a) && e.Emit? && ForwardAt(s, e, who)
    ensures var t := Step(a, s, e);
      && t.grants == s.grants && t.index == s.index
      && Waiting(t.buffers, who)
         == if Sends(s, e, who) then Insert(Waiting(s.buffers, who), Pending(e.m, e.b)) else Waiting(s.buffers, who)
  {
    if Sends(s, e, who) {
      JoinsInOrder(s.buffers, who, e.b, e.m);
    } else if e.b < |s.buffers| {
      PushProjects(s.buffers, e.b, e.m, who);
      WaitingSeesItsOwner(s.buffers, who);
      WaitingSeesItsOwner(Push(s.buffers, e.b, e.m), who);
    }
  }

  lemma {:induction false} WidthStays(a: Config, s: State, events: seq<Event>)
    requires Configured(a)
    ensures |RunAll(a, s, events).buffers| == |s.buffers|
    decreases |events|
  {
    if events != [] {
      var before, e := RunAll(a, s, events[..|events| - 1]), events[|events| - 1];
      WidthStays(a, s, events[..|events| - 1]);
      if e.Elected? && a.policy.RoundRobin? {
        RrElectsForSomebody(a.candidates, before.index, |a.candidates|, before.buffers);
      }
    }
  }

  /** A grant moves the owner's next message across; the line stays. */
  lemma ServingKeepsTheLine(s: State, t: State, who: Who)
    requires ServesNext(s, t, who)
    ensures Line(t, who) == Line(s, who)
  {
  }

  /** What joins a line does so at its end, or before something it comes before. */
  ghost predicate JoinsAt(granted: seq<Message>, ps: seq<Pending>, x: Pending, at: nat) {
    var line := granted + MessagesOf(ps);
    && |granted| <= at <= |line| && granted + MessagesOf(Insert(ps, x)) == line[..at] + [x.m] + line[at..]
    && (at < |line| ==> Before(x, ps[at - |granted|])) && (at == |line| <==> BeforeNone(ps, x))
  }

  ghost predicate BeforeNone(ps: seq<Pending>, x: Pending) { forall i :: 0 <= i < |ps| ==> !Before(x, ps[i]) }

  lemma JoinInside(a: seq<Message>, b: seq<Message>, m: Message, c: seq<Message>)
    ensures var line := a + (b + c);
      line[..|a| + |b|] + [m] + line[|a| + |b|..] == a + (b + [m] + c)
  {
    var line := a + (b + c);
    assert line[..|a| + |b|] == a + b && line[|a| + |b|..] == c;
  }

  lemma MessagesInsert(ps: seq<Pending>, x: Pending, q: nat)
    requires q <= |ps|
    ensures MessagesOf(ps[..q] + [x] + ps[q..]) == MessagesOf(ps)[..q] + [x.m] + MessagesOf(ps)[q..]
    ensures MessagesOf(ps) == MessagesOf(ps)[..q] + MessagesOf(ps)[q..]
  {
  }

  lemma {:induction false} JoiningTheLine(granted: seq<Message>, ps: seq<Pending>, x: Pending) returns (at: nat)
    ensures JoinsAt(granted, ps, x, at)
  {
    var q := InsertSplits(ps, x);
    at := |granted| + q;
    MessagesInsert(ps, x, q);
    JoinInside(granted, MessagesOf(ps)[..q], x.m, MessagesOf(ps)[q..]);
  }

  /** A message sent joins its owner's line. */
  lemma {:induction false} SentJoinsTheLine(a: Config, s: State, e: Event, who: Who) returns (at: nat)
    requires Configured(a) && Sends(s, e, who) && ForwardAt(s, e, who)
    ensures JoinsAt(Granted(s.grants, who), Waiting(s.buffers, who), Pending(e.m, e.b), at)
    ensures Line(Step(a, s, e), who) == Line(s, who)[..at] + [e.m] + Line(s, who)[at..]
  {
    SendingJoins(a, s, e, who);
    at := JoiningTheLine(Granted(s.grants, who), Waiting(s.buffers, who), Pending(e.m, e.b));
  }

  /** Otherwise the line stays. */
  lemma {:induction false} OthersKeepTheLine(a: Config, s: State, e: Event, who: Who)
    requires Configured(a) && Fits(a, who) && !Sends(s, e, who)
    ensures Line(Step(a, s, e), who) == Line(s, who)
  {
    if e.Emit? {
      SendingJoins(a, s, e, who);
    } else {
      ElectionStepServesNext(a, s, e.cycle, who);
      ServingKeepsTheLine(s, Step(a, s, e), who);
    }
  }

  /** Stamps that do not go back anywhere: the owner sends nothing older than anything in its line. */
  ghost predicate NoOlder(s: State, e: Event, who: Who) {
    Sends(s, e, who) ==> forall i :: 0 <= i < |Line(s, who)| ==> Line(s, who)[i].cycle <= e.m.cycle
  }

  ghost predicate TimeGoesOn(a: Config, s: State, events: seq<Event>, who: Who)
    requires Configured(a)
  {
    forall i :: 0 <= i < |events| ==> NoOlder(RunAll(a, s, events[..i]), events[i], who)
  }

  lemma {:induction false} JoinKeepsCycleOrder(line: seq<Message>, at: nat, m: Message)
    requires InCycleOrder(line) && at <= |line| && forall i :: 0 <= i < |line| ==> line[i].cycle <= m.cycle
    requires at < |line| ==> line[at].cycle >= m.cycle
    ensures InCycleOrder(line[..at] + [m] + line[at..])
  {
    var more := line[..at] + [m] + line[at..];
    forall i, j | 0 <= i < j < |more| ensures more[i].cycle <= more[j].cycle {
      if j > at {
        assert more[j] == line[j - 1] && line[at].cycle <= line[j - 1].cycle;
      }
    }
  }

  lemma JoinAdds(line: seq<Message>, at: nat, m: Message)
    requires at <= |line|
    ensures multiset(line[..at] + [m] + line[at..]) == multiset(line) + multiset([m])
  {
    assert line == line[..at] + line[at..];
  }

  lemma {:induction false} StepKeepsCycleOrder(a: Config, s: State, e: Event, who: Who)
    requires Configured(a) && Fits(a, who) && ForwardAt(s, e, who) && NoOlder(s, e, who) && InCycleOrder(Line(s, who))
    ensures InCycleOrder(Line(Step(a, s, e), who))
    ensures multiset(Line(Step(a, s, e), who)) == multiset(Line(s, who)) + multiset(EmittedBy(e, |s.buffers|, who))
  {
    if Sends(s, e, who) {
      var at := SentJoinsTheLine(a, s, e, who);
      JoinKeepsCycleOrder(Line(s, who), at, e.m);
      JoinAdds(Line(s, who), at, e.m);
    } else {
      OthersKeepTheLine(a, s, e, who);
    }
  }

  lemma Adds(a: multiset<Message>, b: multiset<Message>, c: seq<Message>, d: seq<Message>)
    requires a == b + multiset(c)
    ensures a + multiset(d) == b + multiset(c + d)
  {
  }

  /** First in, first granted, when time goes on: over every run an owner is granted what it sent in
      the order of emission, and nothing of it is lost or granted twice. Within a cycle buffers decide. */
  lemma {:induction false} FirstInFirstGranted(a: Config, s: State, events: seq<Event>, who: Who)
    requires Configured(a) && Fits(a, who) && Forward(a, s, events, who) && TimeGoesOn(a, s, events, who)
    requires InCycleOrder(Line(s, who))
    ensures var t := RunAll(a, s, events);
      && InCycleOrder(Granted(t.grants, who) + Served(t.buffers, who))
      && multiset(Line(t, who)) == multiset(Line(s, who)) + multiset(Emitters(events, |s.buffers|, who))
    decreases |events|
  {
    if events != [] {
      var n := |events| - 1;
      var before := RunAll(a, s, events[..n]);
      OneEarlier(a, s, events, who, n);
      forall i | 0 <= i < n ensures NoOlder(RunAll(a, s, events[..n][..i]), events[..n][i], who) {
        assert events[..n][..i] == events[..i];
        assert NoOlder(RunAll(a, s, events[..i]), events[i], who);
      }
      FirstInFirstGranted(a, s, events[..n], who);
      WidthStays(a, s, events[..n]);
      StepKeepsCycleOrder(a, before, events[n], who);
      Adds(multiset(Line(before, who)), multiset(Line(s, who)), Emitters(events[..n], |s.buffers|, who), EmittedBy(events[n], |s.buffers|, who));
    }
  }

  ghost predicate DistinctMessages(ms: seq<Message>) { forall i, j :: 0 <= i < j < |ms| ==> ms[i] != ms[j] }

  /** At every point of the run: what it was granted, then what waits, is what it had and then what it
      sent, in order. */
  ghost predicate AsSent(a: Config, s: State, events: seq<Event>, who: Who, n: nat)
    requires Configured(a) && n <= |events|
  {
    Line(RunAll(a, s, events[..n]), who) == Line(s, who) + Emitters(events[..n], |s.buffers|, who)
  }

  lemma {:induction false} EmittersGrow(events: seq<Event>, width: nat, who: Who, n: nat)
    requires n <= |events|
    ensures Emitters(events[..n], width, who) <= Emitters(events, width, who)
    decreases |events|
  {
    if n < |events| {
      EmittersGrow(events[..|events| - 1], width, who, n);
      assert events[..|events| - 1][..n] == events[..n];
    } else {
      assert events[..n] == events;
    }
  }

  lemma JoinIsLastIff(line: seq<Message>, at: nat, m: Message)
    requires at <= |line| && DistinctMessages(line + [m])
    ensures line[..at] + [m] + line[at..] == line + [m] <==> at == |line|
  {
    if at < |line| {
      assert (line[..at] + [m] + line[at..])[at] == m && (line + [m])[at] == line[at];
      assert (line + [m])[at] != (line + [m])[|line|];
    }
  }

  lemma {:induction false} StepAsSentIff(a: Config, s: State, events: seq<Event>, who: Who, n: nat)
    requires Configured(a) && Fits(a, who) && Forward(a, s, events, who) && n < |events|
    requires DistinctMessages(Line(s, who) + Emitters(events, |s.buffers|, who)) && AsSent(a, s, events, who, n)
    ensures AsSent(a, s, events, who, n + 1) <==> !Overtakes(RunAll(a, s, events[..n]), events[n], who)
  {
    var before := RunAll(a, s, events[..n]);
    OneEarlier(a, s, events, who, n);
    WidthStays(a, s, events[..n]);
    assert events[..n + 1][..n] == events[..n];
    EmittersGrow(events, |s.buffers|, who, n + 1);
    var line, sent, one := Line(s, who), Emitters(events[..n], |s.buffers|, who), EmittedBy(events[n], |s.buffers|, who);
    assert Emitters(events[..n + 1], |s.buffers|, who) == sent + one;
    DistinctPrefix(line, sent + one, Emitters(events, |s.buffers|, who));
    Associates(line, sent, one);
    StepLastIff(a, before, events[n], who);
  }

  /** A step adds what is sent to the end of the line if and only if it does not overtake. */
  lemma {:induction false} StepLastIff(a: Config, s: State, e: Event, who: Who)
    requires Configured(a) && Fits(a, who) && ForwardAt(s, e, who)
    requires DistinctMessages(Line(s, who) + EmittedBy(e, |s.buffers|, who))
    ensures Line(Step(a, s, e), who) == Line(s, who) + EmittedBy(e, |s.buffers|, who) <==> !Overtakes(s, e, who)
  {
    if Sends(s, e, who) {
      var at := SentJoinsTheLine(a, s, e, who);
      JoinIsLastIff(Line(s, who), at, e.m);
    } else {
      OthersKeepTheLine(a, s, e, who);
    }
  }

  lemma Associates(x: seq<Message>, y: seq<Message>, z: seq<Message>)
    ensures (x + y) + z == x + (y + z)
  {
  }

  lemma DistinctPrefix(x: seq<Message>, y: seq<Message>, z: seq<Message>)
    requires y <= z && DistinctMessages(x + z)
    ensures DistinctMessages(x + y)
  {
    assert x + y <= x + z;
  }

  /** The exact condition for arrival order: an owner's line is what it sent, in order, at every point
      of a run if and only if it never sends a message that overtakes one of its own, by a lower stamp
      or by an earlier buffer in the same cycle. */
  lemma {:induction false} AsSentIffNoneOvertakes(a: Config, s: State, events: seq<Event>, who: Who)
    requires Configured(a) && Fits(a, who) && Forward(a, s, events, who)
    requires DistinctMessages(Line(s, who) + Emitters(events, |s.buffers|, who))
    ensures (forall n :: 0 <= n <= |events| ==> AsSent(a, s, events, who, n))
      <==> (forall n :: 0 <= n < |events| ==> !Overtakes(RunAll(a, s, events[..n]), events[n], who))
  {
    if forall n :: 0 <= n <= |events| ==> AsSent(a, s, events, who, n) {
      forall n | 0 <= n < |events| ensures !Overtakes(RunAll(a, s, events[..n]), events[n], who) {
        assert AsSent(a, s, events, who, n) && AsSent(a, s, events, who, n + 1);
        StepAsSentIff(a, s, events, who, n);
      }
    }
    if forall n :: 0 <= n < |events| ==> !Overtakes(RunAll(a, s, events[..n]), events[n], who) {
      forall n | 0 <= n <= |events| ensures AsSent(a, s, events, who, n) { NoneOvertakes(a, s, events, who, n); }
    }
  }

  lemma {:induction false} NoneOvertakes(a: Config, s: State, events: seq<Event>, who: Who, n: nat)
    requires Configured(a) && Fits(a, who) && Forward(a, s, events, who) && n <= |events|
    requires DistinctMessages(Line(s, who) + Emitters(events, |s.buffers|, who))
    requires forall i :: 0 <= i < |events| ==> !Overtakes(RunAll(a, s, events[..i]), events[i], who)
    ensures AsSent(a, s, events, who, n)
  {
    if n > 0 {
      NoneOvertakes(a, s, events, who, n - 1);
      StepAsSentIff(a, s, events, who, n - 1);
    }
  }

  // ---- whom an election serves --------------------------------------------------------------------

  /** The first of an owner's pending messages is granted, or, if it has none, nobody's. */
  ghost predicate Serves(s: State, t: State, who: Who, cycle: nat) {
    var ps := Waiting(s.buffers, who);
    if ps == [] then t.grants == s.grants && t.buffers == s.buffers
    else t.grants == s.grants + [Grant(cycle, ps[0].m)] && Waiting(t.buffers, who) == ps[1..]
         && All(s.buffers) == All(t.buffers) + multiset{ps[0].m}
  }

  lemma {:induction false} ElectServes(bs: Buffers, who: Who)
    ensures var ((got, after), ps) := (Elect(bs, who), Waiting(bs, who));
      if ps == [] then got == None && after == bs
      else got == Some(ps[0].m) && Waiting(after, who) == ps[1..] && All(bs) == All(after) + multiset{ps[0].m}
  {
    ElectionRemovesTheElected(bs, who);
  }

  /** A TDM slot belongs to the next candidate in turn, once each period, and serves its first message
      if it has one; between slots nothing moves. */
  lemma {:induction false} TdmSlotServesItsOwner(a: Config, s: State, cycle: nat)
    requires Configured(a) && a.policy.Tdm?
    ensures var (t, next) := (Step(a, s, Elected(cycle)), Next(s.index, |a.candidates|));
      if cycle % a.policy.period == 0 then t.index == next && Serves(s, t, Owner(a.candidates[next]), cycle) else t == s
  {
    ElectServes(s.buffers, Owner(a.candidates[Next(s.index, |a.candidates|)]));
  }

  /** An FCFS election serves the message that is first over all owners. */
  lemma {:induction false} FcfsServesTheFirst(a: Config, s: State, cycle: nat)
    requires Configured(a) && a.policy.Fcfs?
    ensures Serves(s, Step(a, s, Elected(cycle)), Anyone, cycle) && Step(a, s, Elected(cycle)).index == s.index
  {
    ElectServes(s.buffers, Anyone);
  }

  /** The candidate j places on, going round. */
  function After(index: nat, j: nat, n: nat): (next: nat)
    requires n > 0
    ensures j > 0 ==> next < n
    decreases j
  {
    if j == 0 then index else After(Next(index, n), j - 1, n)
  }

  lemma {:induction false} OnceRound(index: nat, j: nat, n: nat)
    requires index < n && j <= n
    ensures After(index, j, n) == if index + j < n then index + j else index + j - n
    decreases j
  {
    if j > 0 {
      NextIsCloser(index, index, n);
      assert Next(index, n) == if index + 1 < n then index + 1 else 0;
      OnceRound(Next(index, n), j - 1, n);
    }
  }

  /** The candidates j - 1 places on and nearer have nothing, the one j places on has. */
  ghost predicate FirstWithSomething(candidates: seq<int>, index: nat, bs: Buffers, j: nat)
    requires candidates != []
  {
    && j > 0
    && (forall i :: 0 < i < j ==> Waiting(bs, Owner(candidates[After(index, i, |candidates|)])) == [])
    && Waiting(bs, Owner(candidates[After(index, j, |candidates|)])) != []
  }

  lemma {:induction false} RrSkips(candidates: seq<int>, index: nat, tries: nat, bs: Buffers, j: nat)
    requires candidates != [] && 0 < j <= tries && FirstWithSomething(candidates, index, bs, j)
    ensures var next := After(index, j, |candidates|);
      RrElect(candidates, index, tries, bs) == (next, Elect(bs, Owner(candidates[next])).0, Elect(bs, Owner(candidates[next])).1)
    decreases tries
  {
    var n, next := |candidates|, Next(index, |candidates|);
    assert After(index, 1, n) == After(next, 0, n) == next;
    ElectServes(bs, Owner(candidates[next]));
    if j > 1 {
      assert Waiting(bs, Owner(candidates[After(index, 1, n)])) == [];
      SkipOne(candidates, index, bs, j);
      RrSkips(candidates, next, tries - 1, bs, j - 1);
      assert After(index, j, n) == After(next, j - 1, n);
    }
  }

  lemma {:induction false} SkipOne(candidates: seq<int>, index: nat, bs: Buffers, j: nat)
    requires candidates != [] && FirstWithSomething(candidates, index, bs, j) && j > 1
    ensures FirstWithSomething(candidates, Next(index, |candidates|), bs, j - 1)
  {
    var n, next := |candidates|, Next(index, |candidates|);
    forall i | 0 <= i < j ensures After(next, i, n) == After(index, i + 1, n) {}
    forall i | 0 < i < j - 1 ensures Waiting(bs, Owner(candidates[After(next, i, n)])) == [] {
      assert Waiting(bs, Owner(candidates[After(index, i + 1, n)])) == [];
    }
  }

  lemma {:induction false} RrFindsNothing(candidates: seq<int>, index: nat, tries: nat, bs: Buffers)
    requires candidates != [] && forall i :: 0 <= i < |candidates| ==> Waiting(bs, Owner(candidates[i])) == []
    ensures RrElect(candidates, index, tries, bs) == (After(index, tries, |candidates|), None, bs)
    decreases tries
  {
    if tries > 0 {
      ElectServes(bs, Owner(candidates[Next(index, |candidates|)]));
      RrFindsNothing(candidates, Next(index, |candidates|), tries - 1, bs);
    }
  }

  /** An RR election goes round once from the candidate after the last winner and serves the first that
      has something; with nothing for any candidate it comes back to where it was. */
  lemma {:induction false} RrServesTheNext(a: Config, s: State, cycle: nat, j: nat)
    requires Configured(a) && a.policy.RoundRobin? && s.index < |a.candidates|
    ensures var (n, t) := (|a.candidates|, Step(a, s, Elected(cycle)));
      && (0 < j <= n && FirstWithSomething(a.candidates, s.index, s.buffers, j) ==>
            t.index == After(s.index, j, n) < n && Serves(s, t, Owner(a.candidates[t.index]), cycle))
      && ((forall i :: 0 <= i < n ==> Waiting(s.buffers, Owner(a.candidates[i])) == []) ==> t == s)
  {
    var n := |a.candidates|;
    if 0 < j <= n && FirstWithSomething(a.candidates, s.index, s.buffers, j) {
      RrSkips(a.candidates, s.index, n, s.buffers, j);
      ElectServes(s.buffers, Owner(a.candidates[After(s.index, j, n)]));
    }
    if forall i :: 0 <= i < n ==> Waiting(s.buffers, Owner(a.candidates[i])) == [] {
      RrFindsNothing(a.candidates, s.index, n, s.buffers);
      OnceRound(s.index, n, n);
    }
  }

  // ---- bounded wait -------------------------------------------------------------------------------

  /** Tries until the candidate at p has its turn. */
  function TurnsTo(index: nat, p: nat, n: nat): nat
    requires p < n && index < n
  {
    if index < p then p - index else p - index + n
  }

  lemma {:induction false} NextIsCloser(index: nat, p: nat, n: nat)
    requires p < n && index < n
    ensures Next(index, n) < n
    ensures if Next(index, n) == p then TurnsTo(index, p, n) == 1 && TurnsTo(p, p, n) == n
            else TurnsTo(Next(index, n), p, n) == TurnsTo(index, p, n) - 1
  {
    if index + 1 == n { assert (index + 1) % n == 0; } else { assert (index + 1) % n == index + 1; }
  }

  /** With a message pending, the owner at p is elected, or somebody else and its turn comes nearer. */
  lemma {:induction false} RrComesRound(candidates: seq<int>, index: nat, tries: nat, bs: Buffers, p: nat)
    requires p < |candidates| && index < |candidates|
    requires Elect(bs, Owner(candidates[p])).0.Some? && TurnsTo(index, p, |candidates|) <= tries
    ensures var (next, got, after) := RrElect(candidates, index, tries, bs);
      && got.Some? && next < |candidates|
      && (got.value.owner == candidates[p] || TurnsTo(next, p, |candidates|) < TurnsTo(index, p, |candidates|))
    decreases tries
  {
    var next := Next(index, |candidates|);
    NextIsCloser(index, p, |candidates|);
    ElectionRemovesTheElected(bs, Owner(candidates[next]));
    assert next < p || next == p || p < next;
    if Elect(bs, Owner(candidates[next])).0.None? { RrComesRound(candidates, next, tries - 1, bs, p); }
  }

  /** The elections at which somebody's turn comes: each slot of TDM, every election otherwise. */
  predicate IsChance(a: Config, e: Event)
    requires Configured(a)
  {
    e.Elected? && (a.policy.Tdm? ==> e.cycle % a.policy.period == 0)
  }

  function Chances(a: Config, events: seq<Event>): nat
    requires Configured(a)
  {
    if events == [] then 0 else Chances(a, events[..|events| - 1]) + if IsChance(a, events[|events| - 1]) then 1 else 0
  }

  /** Whose turn p is: a candidate's, or under FCFS everyone's at once. */
  predicate IsCandidate(a: Config, p: nat) { Configured(a) && (a.policy.Fcfs? || p < |a.candidates|) }

  function Caller(a: Config, p: nat): Who
    requires IsCandidate(a, p)
  {
    if a.policy.Fcfs? then Anyone else Owner(a.candidates[p])
  }

  function RoundLength(a: Config): nat { if a.policy.Fcfs? then 1 else |a.candidates| }

  ghost predicate Started(a: Config, s: State, p: nat) { IsCandidate(a, p) && (!a.policy.Fcfs? ==> s.index < |a.candidates|) }

  function TurnsOf(a: Config, s: State, p: nat): nat
    requires Started(a, s, p)
  {
    if a.policy.Fcfs? then 1 else TurnsTo(s.index, p, |a.candidates|)
  }

  /** The elections of this many rounds. */
  function Rounds(k: nat, n: nat): nat { if k == 0 then 0 else Rounds(k - 1, n) + n }

  lemma {:induction false} RoundsGrow(j: nat, k: nat, n: nat)
    requires j <= k
    ensures Rounds(j, n) <= Rounds(k, n)
  {
    if j < k { RoundsGrow(j, k - 1, n); }
  }

  lemma {:induction false} RoundsAre(k: nat, n: nat)
    ensures Rounds(k, n) == k * n
  {
    if k > 0 { RoundsAre(k - 1, n); }
  }

  ghost predicate OnTime(n: nat, elections: nat, granted: nat, turns: nat) { elections + turns <= Rounds(granted + 1, n) }

  lemma OneElection(n: nat, elections: nat, granted: nat, turns: nat, granted': nat, turns': nat)
    requires OnTime(n, elections, granted, turns)
    requires if granted' == granted then turns' < turns else granted' == granted + 1 && turns' <= n && turns > 0
    ensures OnTime(n, elections + 1, granted', turns')
  {
  }

  function GrantCount(s: State, who: Who): nat { |Granted(s.grants, who)| }

  /** What an event does for a caller with something pending: at a chance it is granted, or its turn
      comes nearer; at any other event neither changes. */
  ghost predicate Nearer(a: Config, s: State, e: Event, t: State, p: nat)
    requires Started(a, s, p)
  {
    && Started(a, t, p)
    && var (c, d) := (GrantCount(s, Caller(a, p)), GrantCount(t, Caller(a, p)));
       if !IsChance(a, e) then d == c && TurnsOf(a, t, p) == TurnsOf(a, s, p)
       else if d == c then TurnsOf(a, t, p) < TurnsOf(a, s, p) else d == c + 1 && TurnsOf(a, t, p) <= RoundLength(a)
  }

  /** Serving somebody grants the caller one, or none. */
  lemma {:induction false} ServedCounts(s: State, t: State, who: Who, cycle: nat, caller: Who)
    requires Serves(s, t, who, cycle) && (caller.Owner? ==> who.Owner?)
    ensures GrantCount(t, caller) == GrantCount(s, caller)
      + if Waiting(s.buffers, who) != [] && Matches(Waiting(s.buffers, who)[0].m, caller) then 1 else 0
  {
    if Waiting(s.buffers, who) != [] { GrantedLast(s.grants, Grant(cycle, Waiting(s.buffers, who)[0].m), caller); }
  }

  lemma FirstIsTheOwners(bs: Buffers, who: Who)
    requires Waiting(bs, who) != []
    ensures Matches(Waiting(bs, who)[0].m, who)
  {
    ElectionRemovesTheElected(bs, who);
  }

  lemma {:induction false} TdmNearer(a: Config, s: State, cycle: nat, p: nat)
    requires Started(a, s, p) && a.policy.Tdm? && Waiting(s.buffers, Caller(a, p)) != []
    ensures Nearer(a, s, Elected(cycle), Step(a, s, Elected(cycle)), p)
  {
    var next := Next(s.index, |a.candidates|);
    TdmSlotServesItsOwner(a, s, cycle);
    NextIsCloser(s.index, p, |a.candidates|);
    if cycle % a.policy.period == 0 {
      ServedCounts(s, Step(a, s, Elected(cycle)), Owner(a.candidates[next]), cycle, Caller(a, p));
      if next == p { FirstIsTheOwners(s.buffers, Caller(a, p)); }
    }
  }

  lemma {:induction false} RrNearer(a: Config, s: State, cycle: nat, p: nat)
    requires Started(a, s, p) && a.policy.RoundRobin? && Waiting(s.buffers, Caller(a, p)) != []
    ensures Nearer(a, s, Elected(cycle), Step(a, s, Elected(cycle)), p)
  {
    var n := |a.candidates|;
    RrComesRound(a.candidates, s.index, n, s.buffers, p);
    var got := RrElect(a.candidates, s.index, n, s.buffers).1;
    GrantedLast(s.grants, Grant(cycle, got.value), Caller(a, p));
  }

  lemma {:induction false} FcfsNearer(a: Config, s: State, cycle: nat, p: nat)
    requires Started(a, s, p) && a.policy.Fcfs? && Waiting(s.buffers, Caller(a, p)) != []
    ensures Nearer(a, s, Elected(cycle), Step(a, s, Elected(cycle)), p)
  {
    FcfsServesTheFirst(a, s, cycle);
    GrantedLast(s.grants, Grant(cycle, Waiting(s.buffers, Anyone)[0].m), Anyone);
  }

  lemma {:induction false} StepComesNearer(a: Config, s: State, e: Event, p: nat)
    requires Started(a, s, p) && Waiting(s.buffers, Caller(a, p)) != []
    ensures Nearer(a, s, e, Step(a, s, e), p)
  {
    match e
    case Emit(b, m) =>
    case Elected(cycle) =>
      match a.policy
      case Tdm(period) => TdmNearer(a, s, cycle, p);
      case RoundRobin => RrNearer(a, s, cycle, p);
      case Fcfs => FcfsNearer(a, s, cycle, p);
  }

  lemma EnoughElections(n: nat, elections: nat, granted: nat, turns: nat, k: nat)
    requires OnTime(n, elections, granted, turns) && turns > 0 && elections >= Rounds(k + 1, n)
    ensures granted > k
  {
    if granted <= k { RoundsGrow(granted + 1, k + 1, n); }
  }

  /** How often the owner sends something that comes before x: within one cycle, into an earlier
      buffer. */
  function Overtakers(events: seq<Event>, width: nat, who: Who, x: Pending): nat {
    if events == [] then 0
    else Overtakers(events[..|events| - 1], width, who, x) + OvertakesOne(events[|events| - 1], width, who, x)
  }

  function OvertakesOne(e: Event, width: nat, who: Who, x: Pending): nat {
    if e.Emit? && e.b < width && Matches(e.m, who) && Before(Pending(e.m, e.b), x) then 1 else 0
  }

  /** x was the grant number `at` or earlier, after all of `older`. */
  ghost predicate GrantedBy(s: State, who: Who, x: Pending, older: multiset<Message>, at: nat) {
    exists i :: 0 <= i < |Granted(s.grants, who)| && GrantedAs(Granted(s.grants, who), x, older, at, i)
  }

  ghost predicate GrantedAs(granted: seq<Message>, x: Pending, older: multiset<Message>, at: nat, i: nat)
    requires i < |granted|
  {
    granted[i] == x.m && i <= at && older <= multiset(granted[..i])
  }

  /** x waits, and will be the grant number `at` or earlier, after all of `older`. */
  ghost predicate WaitsFor(granted: seq<Message>, ps: seq<Pending>, x: Pending, older: multiset<Message>, at: nat, j: nat) {
    && Sorted(ps) && j < |ps| && ps[j] == x && |granted| + j <= at
    && older <= multiset(granted) + multiset(MessagesOf(ps[..j]))
  }

  ghost predicate StillWaits(s: State, who: Who, x: Pending, older: multiset<Message>, at: nat) {
    WaitsSomewhere(Granted(s.grants, who), Waiting(s.buffers, who), x, older, at)
  }

  ghost predicate WaitsSomewhere(granted: seq<Message>, ps: seq<Pending>, x: Pending, older: multiset<Message>, at: nat) {
    exists j :: 0 <= j < |ps| && WaitsFor(granted, ps, x, older, at, j)
  }

  lemma {:induction false} JoinWaits(granted: seq<Message>, ps: seq<Pending>, x: Pending, older: multiset<Message>, at: nat, j: nat, y: Pending)
      returns (j': nat)
    requires WaitsFor(granted, ps, x, older, at, j)
    ensures WaitsFor(granted, Insert(ps, y), x, older, at + if Before(y, x) then 1 else 0, j')
  {
    InsertKeepsSorted(ps, y);
    var q := InsertSplits(ps, y);
    var more := ps[..q] + [y] + ps[q..];
    if q <= j {
      j' := j + 1;
      JoinAhead(ps, j, q, y);
    } else {
      j' := j;
      assert more[..j] == ps[..j];
    }
  }

  /** What joins ahead of a message comes before it, and adds itself to those ahead. */
  lemma {:induction false} JoinAhead(ps: seq<Pending>, j: nat, q: nat, y: Pending)
    requires Sorted(ps) && q <= j < |ps| && Before(y, ps[q])
    ensures Before(y, ps[j])
    ensures var more := ps[..q] + [y] + ps[q..];
      more[j + 1] == ps[j] && multiset(MessagesOf(more[..j + 1])) == multiset(MessagesOf(ps[..j])) + multiset{y.m}
  {
    var more := ps[..q] + [y] + ps[q..];
    assert q < j ==> !Before(ps[j], ps[q]);
    assert more[..j + 1] == ps[..q] + [y] + ps[q..j];
    assert MessagesOf(more[..j + 1]) == MessagesOf(ps[..q]) + [y.m] + MessagesOf(ps[q..j]);
    assert MessagesOf(ps[..j]) == MessagesOf(ps[..q]) + MessagesOf(ps[q..j]);
  }

  lemma {:induction false} ServeWaits(granted: seq<Message>, ps: seq<Pending>, x: Pending, older: multiset<Message>, at: nat, j: nat)
    requires WaitsFor(granted, ps, x, older, at, j)
    ensures var more := granted + [ps[0].m];
      if j == 0 then GrantedAs(more, x, older, at, |granted|)
      else WaitsFor(more, ps[1..], x, older, at, j - 1)
  {
    if j > 0 {
      SortedTail(ps);
      assert ps[1..][..j - 1] == ps[1..j];
      assert MessagesOf(ps[..j]) == [ps[0].m] + MessagesOf(ps[1..j]);
    } else {
      assert (granted + [ps[0].m])[..|granted|] == granted;
      assert MessagesOf(ps[..0]) == [];
    }
  }

  lemma {:induction false} GrantedStays(a: Config, s: State, e: Event, who: Who, x: Pending, older: multiset<Message>, at: nat, at': nat)
    requires Configured(a) && Fits(a, who) && ForwardAt(s, e, who) && at <= at' && GrantedBy(s, who, x, older, at)
    ensures GrantedBy(Step(a, s, e), who, x, older, at')
  {
    var granted, t := Granted(s.grants, who), Step(a, s, e);
    var i :| 0 <= i < |granted| && GrantedAs(granted, x, older, at, i);
    if e.Emit? { SendingJoins(a, s, e, who); } else { ElectionStepServesNext(a, s, e.cycle, who); }
    assert Granted(t.grants, who)[..i] == granted[..i];
    assert GrantedAs(Granted(t.grants, who), x, older, at', i);
  }

  lemma {:induction false} WaitEmit(a: Config, s: State, e: Event, who: Who, x: Pending, older: multiset<Message>, at: nat, at': nat)
    requires Configured(a) && e.Emit? && ForwardAt(s, e, who) && StillWaits(s, who, x, older, at)
    requires at' == at + OvertakesOne(e, |s.buffers|, who, x)
    ensures StillWaits(Step(a, s, e), who, x, older, at')
  {
    SendingJoins(a, s, e, who);
    if Sends(s, e, who) { JoinStillWaits(Granted(s.grants, who), Waiting(s.buffers, who), x, older, at, at', Pending(e.m, e.b)); }
  }

  lemma {:induction false} JoinStillWaits(granted: seq<Message>, ps: seq<Pending>, x: Pending, older: multiset<Message>,
                                          at: nat, at': nat, y: Pending)
    requires WaitsSomewhere(granted, ps, x, older, at) && at' == at + if Before(y, x) then 1 else 0
    ensures WaitsSomewhere(granted, Insert(ps, y), x, older, at')
  {
    var j :| 0 <= j < |ps| && WaitsFor(granted, ps, x, older, at, j);
    var j' := JoinWaits(granted, ps, x, older, at, j, y);
  }

  lemma {:induction false} WaitElection(s: State, t: State, who: Who, x: Pending, older: multiset<Message>, at: nat)
    requires ServesNext(s, t, who) && StillWaits(s, who, x, older, at)
    ensures GrantedBy(t, who, x, older, at) || StillWaits(t, who, x, older, at)
  {
    var granted, ps := Granted(s.grants, who), Waiting(s.buffers, who);
    var j :| 0 <= j < |ps| && WaitsFor(granted, ps, x, older, at, j);
    ServeWaits(granted, ps, x, older, at, j);
  }

  /** One event for a message that waits. */
  lemma {:induction false} WaitStep(a: Config, s: State, e: Event, who: Who, x: Pending, older: multiset<Message>, at: nat, at': nat)
    requires Configured(a) && Fits(a, who) && ForwardAt(s, e, who) && StillWaits(s, who, x, older, at)
    requires at' == at + OvertakesOne(e, |s.buffers|, who, x)
    ensures GrantedBy(Step(a, s, e), who, x, older, at') || StillWaits(Step(a, s, e), who, x, older, at')
  {
    if e.Emit? {
      WaitEmit(a, s, e, who, x, older, at, at');
    } else {
      ElectionStepServesNext(a, s, e.cycle, who);
      WaitElection(s, Step(a, s, e), who, x, older, at);
    }
  }

  datatype Pace = Waits | Turns | Deadline

  ghost predicate Keeps(a: Config, t: State, p: nat, x: Pending, older: multiset<Message>, at: nat, chances: nat, pace: Pace)
    requires IsCandidate(a, p)
  {
    match pace
    case Waits => StillWaits(t, Caller(a, p), x, older, at)
    case Turns => Started(a, t, p)
    case Deadline => Started(a, t, p) && OnTime(RoundLength(a), chances, GrantCount(t, Caller(a, p)), TurnsOf(a, t, p))
  }

  /** x was granted as promised, or waits and its turn comes nearer with every chance. (The quantifier over
      an enumeration keeps the verifier from unfolding it at every mention.) */
  ghost predicate Progresses(a: Config, t: State, p: nat, x: Pending, older: multiset<Message>, at: nat, chances: nat)
    requires IsCandidate(a, p)
  {
    GrantedBy(t, Caller(a, p), x, older, at)
    || forall pace {:trigger Keeps(a, t, p, x, older, at, chances, pace)} :: Keeps(a, t, p, x, older, at, chances, pace)
  }

  lemma {:induction false} ProgressStep(a: Config, s: State, e: Event, p: nat, x: Pending, older: multiset<Message>,
                                        at: nat, elections: nat, at': nat, elections': nat)
    requires IsCandidate(a, p) && Progresses(a, s, p, x, older, at, elections) && ForwardAt(s, e, Caller(a, p))
    requires at' == at + OvertakesOne(e, |s.buffers|, Caller(a, p), x)
    requires elections' == elections + if IsChance(a, e) then 1 else 0
    ensures Progresses(a, Step(a, s, e), p, x, older, at', elections')
  {
    var c, t := Caller(a, p), Step(a, s, e);
    if GrantedBy(s, c, x, older, at) {
      GrantedStays(a, s, e, c, x, older, at, at');
    } else {
      assert Keeps(a, s, p, x, older, at, elections, Waits) && Keeps(a, s, p, x, older, at, elections, Deadline);
      WaitStep(a, s, e, c, x, older, at, at');
      StepComesNearer(a, s, e, p);
      if IsChance(a, e) {
        OneElection(RoundLength(a), elections, GrantCount(s, c), TurnsOf(a, s, p), GrantCount(t, c), TurnsOf(a, t, p));
      }
    }
  }

  /** x, which was number k of its owner's at first, after a run. */
  ghost predicate OnTrack(a: Config, s: State, events: seq<Event>, p: nat, x: Pending, older: multiset<Message>, k: nat)
    requires IsCandidate(a, p)
  {
    Progresses(a, RunAll(a, s, events), p, x, older, k + Overtakers(events, |s.buffers|, Caller(a, p), x), Chances(a, events))
  }

  lemma TrackStarts(a: Config, s: State, p: nat, x: Pending, older: multiset<Message>, k: nat)
    requires IsCandidate(a, p) && Progresses(a, s, p, x, older, k, 0)
    ensures OnTrack(a, s, [], p, x, older, k)
  {
    assert k + Overtakers([], |s.buffers|, Caller(a, p), x) == k;
  }

  lemma {:induction false} TrackGoesOn(a: Config, s: State, events: seq<Event>, p: nat, x: Pending, older: multiset<Message>, k: nat)
    requires IsCandidate(a, p) && events != []
    requires OnTrack(a, s, events[..|events| - 1], p, x, older, k)
    requires ForwardAt(RunAll(a, s, events[..|events| - 1]), events[|events| - 1], Caller(a, p))
    ensures OnTrack(a, s, events, p, x, older, k)
  {
    var n, c := |events| - 1, Caller(a, p);
    WidthStays(a, s, events[..n]);
    var at, at' := k + Overtakers(events[..n], |s.buffers|, c, x), k + Overtakers(events, |s.buffers|, c, x);
    assert at' == at + OvertakesOne(events[n], |s.buffers|, c, x);
    ProgressStep(a, RunAll(a, s, events[..n]), events[n], p, x, older, at, Chances(a, events[..n]), at', Chances(a, events));
  }

  /** Until x is granted, its chances are few. */
  lemma {:induction false} RunProgresses(a: Config, s: State, events: seq<Event>, p: nat, x: Pending, older: multiset<Message>, k: nat)
    requires IsCandidate(a, p) && Forward(a, s, events, Caller(a, p)) && Progresses(a, s, p, x, older, k, 0)
    ensures OnTrack(a, s, events, p, x, older, k)
    decreases |events|
  {
    if events == [] {
      TrackStarts(a, s, p, x, older, k);
    } else {
      OneEarlier(a, s, events, Caller(a, p), |events| - 1);
      assert Forward(a, s, events[..|events| - 1], Caller(a, p));
      RunProgresses(a, s, events[..|events| - 1], p, x, older, k);
      TrackGoesOn(a, s, events, p, x, older, k);
    }
  }

  lemma {:induction false} WaitsAtFirst(s: State, who: Who, k: nat)
    requires s.grants == [] && Emitted(s.buffers) && k < |Waiting(s.buffers, who)|
    ensures StillWaits(s, who, Waiting(s.buffers, who)[k], multiset(Served(s.buffers, who)[..k]), k)
  {
    var ps := Waiting(s.buffers, who);
    ServedInOrder(s.buffers, who);
    assert MessagesOf(ps[..k]) == Served(s.buffers, who)[..k];
    assert WaitsFor(Granted(s.grants, who), ps, ps[k], multiset(Served(s.buffers, who)[..k]), k, k);
  }

  lemma {:induction false} ProgressAtFirst(a: Config, s: State, p: nat, k: nat)
    requires Started(a, s, p) && s.grants == [] && Emitted(s.buffers) && k < |Waiting(s.buffers, Caller(a, p))|
    ensures var c := Caller(a, p);
      Progresses(a, s, p, Waiting(s.buffers, c)[k], multiset(Served(s.buffers, c)[..k]), k, 0)
  {
    WaitsAtFirst(s, Caller(a, p), k);
  }

  /** After enough chances it does not wait any more. */
  lemma {:induction false} EnoughProgress(a: Config, t: State, p: nat, x: Pending, older: multiset<Message>, at: nat, elections: nat)
    requires IsCandidate(a, p) && Progresses(a, t, p, x, older, at, elections) && elections >= Rounds(at + 1, RoundLength(a))
    ensures GrantedBy(t, Caller(a, p), x, older, at)
  {
    var c := Caller(a, p);
    if !GrantedBy(t, c, x, older, at) {
      assert Keeps(a, t, p, x, older, at, elections, Waits) && Keeps(a, t, p, x, older, at, elections, Deadline);
      EnoughElections(RoundLength(a), elections, GrantCount(t, c), TurnsOf(a, t, p), at);
    }
  }

  lemma {:induction false} EndOfTrack(a: Config, s: State, events: seq<Event>, p: nat, x: Pending, older: multiset<Message>, k: nat, at: nat)
    requires IsCandidate(a, p) && OnTrack(a, s, events, p, x, older, k)
    requires at == k + Overtakers(events, |s.buffers|, Caller(a, p), x) && Chances(a, events) >= Rounds(at + 1, RoundLength(a))
    ensures GrantedBy(RunAll(a, s, events), Caller(a, p), x, older, at)
  {
    EnoughProgress(a, RunAll(a, s, events), p, x, older, at, Chances(a, events));
  }

  /** Bounded wait under every policy: a message with k older ones of its owner is granted within
      (k + o + 1) * n chances, after those k and at most o others. Under RR the chances are elections
      and n the number of candidates; under TDM they are the slots, one each period; under FCFS, where
      all owners count as one, they are elections and n is 1. o is how often its owner sends one that
      comes before it: with stamps that do not go back, in its own cycle into an earlier buffer. */
  lemma {:induction false} ServesWithin(a: Config, s: State, events: seq<Event>, p: nat, k: nat)
    requires Started(a, s, p) && s.grants == [] && Emitted(s.buffers)
    requires Forward(a, s, events, Caller(a, p)) && k < |Waiting(s.buffers, Caller(a, p))|
    requires var c := Caller(a, p);
      Chances(a, events) >= (k + Overtakers(events, |s.buffers|, c, Waiting(s.buffers, c)[k]) + 1) * RoundLength(a)
    ensures var c := Caller(a, p);
      var x := Waiting(s.buffers, c)[k];
      GrantedBy(RunAll(a, s, events), c, x, multiset(Served(s.buffers, c)[..k]), k + Overtakers(events, |s.buffers|, c, x))
  {
    var c := Caller(a, p);
    var x, older := Waiting(s.buffers, c)[k], multiset(Served(s.buffers, c)[..k]);
    var at := k + Overtakers(events, |s.buffers|, c, x);
    ProgressAtFirst(a, s, p, k);
    RunProgresses(a, s, events, p, x, older, k);
    RoundsAre(at + 1, RoundLength(a));
    EndOfTrack(a, s, events, p, x, older, k, at);
  }
}

module Arbiters {
  import opened Wrappers
  import opened Messages
  import opened Election
  import opened Arbitration

  /** findMessage. */
  method FindMessage(buffer: seq<Message>, id: int) returns (k: int)
    ensures k == -1 <==> FirstMatch(buffer, Owner(id)) == |buffer|
    ensures k != -1 ==> k == FirstMatch(buffer, Owner(id))
  {
    var i := 0;
    while i < |buffer|
      invariant i <= |buffer| && FirstMatch(buffer, Owner(id)) == i + FirstMatch(buffer[i..], Owner(id))
    {
      if buffer[i].owner == id { return i; }
      assert buffer[i..][1..] == buffer[i + 1..];
      i := i + 1;
    }
    k := -1;
  }

  /** electOldestOwned, on the senders' buffers in place. */
  method ElectOldestOwned(buffers: array<seq<Message>>, owner: int) returns (got: Option<Message>)
    modifies buffers
    ensures (got, buffers[..]) == Elect(old(buffers[..]), Owner(owner))
  {
    var best: Option<Place>, bestCycle := None, NEVER;
    for i := 0 to buffers.Length
      invariant buffers[..] == old(buffers[..])
      invariant best == Winner(buffers[..i], Owner(owner))
      invariant bestCycle == if best.Some? then Bid(buffers[best.value.buf], Owner(owner)) else NEVER
    {
      var idx := FindMessage(buffers[i], owner);
      assert buffers[..i + 1][..i] == buffers[..i];
      if idx != -1 && buffers[i][idx].cycle < bestCycle {
        best, bestCycle := Some(Place(i, idx)), buffers[i][idx].cycle;
      }
    }
    assert buffers[..buffers.Length] == buffers[..];
    if best.None? { return None; }
    var Place(b, k) := best.value;
    got := Some(buffers[b][k]);
    buffers[b] := buffers[b][..k] + buffers[b][k + 1..];
  }

  class TdmArbiter {
    const candidates: seq<int>
    const period: nat
    var candidateIndex: nat

    ghost predicate Valid()
      reads this
    {
      candidates != [] && period > 0
    }

    constructor (candidates: seq<int>, period: nat)
      requires candidates != [] && period > 0
      ensures Valid() && candidateIndex == 0 && this.candidates == candidates && this.period == period
    {
      this.candidates, this.period, candidateIndex := candidates, period, 0;
    }

    method Elect(cycle: nat, buffers: array<seq<Message>>) returns (got: Option<Message>)
      requires Valid()
      modifies this`candidateIndex, buffers
      ensures Valid() && (candidateIndex, got, buffers[..])
        == ElectNow(Config(Tdm(period), candidates), old(candidateIndex), cycle, old(buffers[..]))
    {
      if cycle % period != 0 { return None; }
      candidateIndex := (candidateIndex + 1) % |candidates|;
      got := ElectOldestOwned(buffers, candidates[candidateIndex]);
    }
  }

  class RrArbiter {
    const candidates: seq<int>
    var candidateIndex: nat

    ghost predicate Valid()
      reads this
    {
      candidates != []
    }

    constructor (candidates: seq<int>)
      requires candidates != []
      ensures Valid() && candidateIndex == 0 && this.candidates == candidates
    {
      this.candidates, candidateIndex := candidates, 0;
    }

    method Elect(cycle: nat, buffers: array<seq<Message>>) returns (got: Option<Message>)
      requires Valid()
      modifies this`candidateIndex, buffers
      ensures Valid() && (candidateIndex, got, buffers[..])
        == ElectNow(Config(RoundRobin, candidates), old(candidateIndex), cycle, old(buffers[..]))
    {
      var i := 0;
      got := None;
      while i < |candidates|
        invariant i <= |candidates| && got.None? && buffers[..] == old(buffers[..])
        invariant RrElect(candidates, old(candidateIndex), |candidates|, buffers[..])
          == RrElect(candidates, candidateIndex, |candidates| - i, buffers[..])
      {
        candidateIndex := (candidateIndex + 1) % |candidates|;
        got := ElectOldestOwned(buffers, candidates[candidateIndex]);
        if got.Some? { return; }
        i := i + 1;
      }
    }
  }

  class FcfsArbiter {
    method Elect(cycle: nat, buffers: array<seq<Message>>) returns (got: Option<Message>)
      modifies buffers
      ensures (got, buffers[..]) == Election.Elect(old(buffers[..]), Anyone)
    {
      var min: Option<nat>, minCycle := None, NEVER;
      for i := 0 to buffers.Length
        invariant buffers[..] == old(buffers[..])
        invariant min.None? ==> Winner(buffers[..i], Anyone).None? && minCycle == NEVER
        invariant min.Some? ==> min.value < i && minCycle == Bid(buffers[min.value], Anyone)
        invariant min.Some? ==> Winner(buffers[..i], Anyone) == Some(Place(min.value, 0))
      {
        assert buffers[..i + 1][..i] == buffers[..i];
        if buffers[i] != [] && buffers[i][0].cycle < minCycle {
          min, minCycle := Some(i), buffers[i][0].cycle;
        }
      }
      assert buffers[..buffers.Length] == buffers[..];
      if min.None? { return None; }
      assert buffers[min.value][..0] + buffers[min.value][1..] == buffers[min.value][1..];
      got := Some(buffers[min.value][0]);
      buffers[min.value] := buffers[min.value][1..];
    }
  }
}

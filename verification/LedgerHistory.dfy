/** Whole histories of the ledger, and the two places where the code does less than it should. */
module LedgerHistory {
  import opened LedgerModel
  import opened LedgerInvariant
  import opened LedgerProcess
  import opened LedgerUndo
  import opened LedgerRollback
  import opened LedgerDeterminacy
  import opened LedgerObject
  import opened MapSums

  /** A fresh ledger is sound. */
  lemma GenesisIsSound(net: Network)
    requires NetworkOk(net)
    ensures Sound(net, Genesis(net))
  {
    var s := Genesis(net);
    var g := net.genesis;
    assert EntryOk(net, s, g.hash) && HeadOk(s, g.account);
    assert Balances(s) == map[][g.account := g.balance as int] && Amounts(s) == map[];
    SumUpdate(map[], g.account, g.balance);
    forall r
      ensures WeightOf(s, r) == Delegated(s, r)
    {
      var share := if g.representative == r then g.balance as int else 0;
      assert Delegations(s, r) == map[][g.account := share];
      SumUpdate(map[], g.account, share);
    }
  }

  /**
  What can happen to a ledger: a block arrives, a head is undone, a block is rolled back
  and leaves the store that `Ledger.Rollback` leaves, a height is cemented.
  */
  datatype Event =
    | Arrive(block: Block, verification: Verification)
    | Undo(account: Account)
    | RollBack(hash: Hash, result: Store)
    | Cement(account: Account, height: nat)

  function Cemented(s: Store, a: Account, n: nat): Store {
    s.(heights := s.heights[a := n])
  }

  /** Cementing only rises, up to the head, and never ahead of a source. */
  ghost predicate Cementable(s: Store, a: Account, n: nat) {
    && a in s.accounts && a in s.heights && s.heights[a] <= n <= s.accounts[a].blockCount
    && ConfirmedClosed(Cemented(s, a, n))
  }

  ghost function Happen(net: Network, s: Store, e: Event): Store {
    match e
    case Arrive(b, v) => Process(net, s, b, v).1
    case Undo(a) => if Undoable(s, a) && Head(s, a) in s.blocks then Undone(net, s, a) else s
    case RollBack(h, s') => if h in s.blocks && RolledBack(net, s, h, s') then s' else s
    case Cement(a, n) => if Cementable(s, a, n) then Cemented(s, a, n) else s
  }

  ghost function History(net: Network, events: seq<Event>): Store {
    if events == [] then Genesis(net)
    else Happen(net, History(net, events[..|events| - 1]), events[|events| - 1])
  }

  /** No epoch block in the history opens an account on a foreign block. */
  ghost predicate Regular(net: Network, events: seq<Event>) {
    events == [] ||
    var before := events[..|events| - 1];
    var last := events[|events| - 1];
    && Regular(net, before)
    && (last.Arrive? ==>
          && RealHash(net, last.block.hash)
          && !(Check(net, History(net, before), last.block, last.verification) == Progress
               && OpensOnForeignBlock(History(net, before), last.block)))
  }

  lemma CementKeepsSound(net: Network, s: Store, a: Account, n: nat)
    requires Sound(net, s) && Cementable(s, a, n)
    ensures Sound(net, Cemented(s, a, n))
  {
    CementKeepsShape(net, s, a, n);
    CementKeepsMoney(s, a, n);
    ExactIsNoDrift(s);
    ExactIsNoDrift(Cemented(s, a, n));
  }

  lemma CementKeepsMoney(s: Store, a: Account, n: nat)
    ensures Supply(Cemented(s, a, n)) == Supply(s) && SameDrift(s, Cemented(s, a, n))
  {
  }

  lemma CementKeepsChains(net: Network, s: Store, a: Account, n: nat)
    requires Shape(net, s)
    ensures Chains(net, Cemented(s, a, n)) && NoForks(Cemented(s, a, n))
  {
    var s' := Cemented(s, a, n);
    forall h | h in s'.blocks ensures EntryOk(net, s', h) { assert EntryOk(net, s, h); }
    forall h, k | h in s'.blocks && k in s'.blocks && SameSpot(s', h, k) ensures h == k { assert SameSpot(s, h, k); }
  }

  lemma CementKeepsShape(net: Network, s: Store, a: Account, n: nat)
    requires Shape(net, s) && a in s.accounts && a in s.heights && s.heights[a] <= n <= s.accounts[a].blockCount
    ensures Shape(net, Cemented(s, a, n))
  {
    CementKeepsChains(net, s, a, n);
    var s' := Cemented(s, a, n);
    forall c | c in s'.accounts ensures HeadOk(s', c) { assert HeadOk(s, c); }
    CementKeepsTransfers(net, s, a, n);
  }

  lemma CementKeepsTransfers(net: Network, s: Store, a: Account, n: nat)
    requires Shape(net, s)
    ensures var s' := Cemented(s, a, n); Pendings(s') && Receives(s') && LooseReceives(s') && ReceivedOnce(s') && Sends(s')
  {
    var s' := Cemented(s, a, n);
    forall k | k in s'.pending ensures PendingOk(s', k) { assert PendingOk(s, k); }
    forall h | IsReceive(s', h) ensures ReceiveOk(s', h) { assert ReceiveOk(s, h); }
    ReceivesAreLoose(s');
    forall h, k | SameSource(s', h, k) ensures h == k { assert SameSource(s, h, k); }
    forall h | IsSend(s', h)
      ensures SendOk(s', h)
    {
      assert SendOk(s, h);
      if r :| ReceivesFrom(s, r, h) {
        assert ReceivesFrom(s', r, h);
      }
    }
  }

  /**
  In every history the supply is the genesis amount, the voting weights are the
  delegated balances, and the chains and transfers are in shape.
  */
  lemma {:induction false} HistoryIsSound(net: Network, events: seq<Event>)
    requires NetworkOk(net) && Regular(net, events)
    ensures Sound(net, History(net, events))
  {
    if events == [] {
      GenesisIsSound(net);
    } else {
      var before := events[..|events| - 1];
      HistoryIsSound(net, before);
      var s := History(net, before);
      match events[|events| - 1]
      case Arrive(b, v) => ProcessKeepsSound(net, s, b, v);
      case Undo(a) =>
        if Undoable(s, a) {
          UndoneKeepsSound(net, s, a);
        }
      case RollBack(h, s') =>
        if h in s.blocks && RolledBack(net, s, h, s') {
          RollbackKeepsSound(net, s, h, s');
        }
      case Cement(a, n) =>
        if Cementable(s, a, n) {
          CementKeepsSound(net, s, a, n);
        }
    }
  }

  /** In every history the stored details are those the references of a block call for. */
  lemma {:induction false} HistoryIsDated(net: Network, events: seq<Event>)
    requires NetworkOk(net) && Regular(net, events)
    ensures Dated(net, History(net, events))
  {
    if events == [] {
    } else {
      var before := events[..|events| - 1];
      HistoryIsDated(net, before);
      HistoryIsSound(net, before);
      HistoryIsSound(net, events);
      var s := History(net, before);
      match events[|events| - 1]
      case Arrive(b, v) =>
        if Check(net, s, b, v) == Progress {
          AcceptedLands(net, s, b, v);
          AppliedKeepsDated(net, s, b);
        }
      case Undo(_) => RevertedKeepsDated(net, s, History(net, events));
      case RollBack(_, _) => RevertedKeepsDated(net, s, History(net, events));
      case Cement(_, _) => RevertedKeepsDated(net, s, History(net, events));
    }
  }

  /**
  Any two histories that end with the same blocks end with the same accounts, pending
  entries and voting weights, whatever the order in which blocks arrived, and whatever
  else arrived and was undone on the way.
  */
  lemma OrderOfArrivalDoesNotMatter(net: Network, events: seq<Event>, events': seq<Event>)
    requires NetworkOk(net) && Regular(net, events) && Regular(net, events')
    requires SameBlocks(History(net, events), History(net, events'))
    ensures var s, s' := History(net, events), History(net, events');
            && s.accounts == s'.accounts && s.pending == s'.pending
            && forall r :: WeightOf(s, r) == WeightOf(s', r)
  {
    HistoryIsSound(net, events);
    HistoryIsSound(net, events');
    HistoryIsDated(net, events);
    HistoryIsDated(net, events');
    LedgerIsItsBlocks(net, History(net, events), History(net, events'));
  }

  /** No double spend: whatever was sent is either still pending or received by exactly one block. */
  lemma SentOnceSpentOnce(net: Network, events: seq<Event>, h: Hash)
    requires NetworkOk(net) && Regular(net, events) && IsSend(History(net, events), h)
    ensures var s := History(net, events);
            && (Key(s.blocks[h].block.link, h) in s.pending <==> !exists r :: ReceivesFrom(s, r, h))
            && forall q, r :: ReceivesFrom(s, q, h) && ReceivesFrom(s, r, h) ==> q == r
  {
    HistoryIsSound(net, events);
    var s := History(net, events);
    assert SendOk(s, h);
    forall r | ReceivesFrom(s, r, h)
      ensures Key(s.blocks[h].block.link, h) !in s.pending
    {
      assert ReceiveOk(s, r);
    }
    forall q, r | ReceivesFrom(s, q, h) && ReceivesFrom(s, r, h)
      ensures q == r
    {
      assert SameSource(s, q, r);
    }
  }

  // ------------------------------------------------- where the code falls short

  /**
  The end of the visitor conserves the supply if and only if it does not undo a send
  that is not pending.  It goes on to undo such a send when the inner rollback is
  refused, because it keeps the refusal in a local variable.
  */
  lemma UndoConservesIff(net: Network, s: Store, a: Account)
    requires Skeleton(net, s) && a in s.accounts && !Orphaned(s, Head(s, a))
    requires Head(s, a) in s.blocks && Head(s, a) != net.genesis.hash
    ensures Supply(Undone(net, s, a)) == Supply(s)
        <==> !(IsSend(s, Head(s, a)) && Key(s.blocks[Head(s, a)].block.link, Head(s, a)) !in s.pending)
  {
    UndoneSupply(net, s, a);
    assert EntryOk(net, s, Head(s, a));
  }

  /** A network, and a genesis account that sends all it has to account 20. */
  const EXAMPLE: Network :=
    Network(Block(1, 10, 0, 10, GENESIS_AMOUNT, 10, true, false, 0), map[99 := 3], 0, 0, 0)

  const SEND_ALL: Block := Block(2, 10, 1, 10, 0, 20, true, false, 0)

  /** The store once that send is accepted. */
  function Sent(): Store {
    Applied(EXAMPLE, Genesis(EXAMPLE), SEND_ALL)
  }

  lemma SentTables()
    ensures var s := Sent();
            && s.pending == map[Key(20, 2) := Pending(10, GENESIS_AMOUNT, EPOCH_0)]
            && s.accounts.Keys == {10} && s.blocks.Keys == {1, 2} && s.heights == map[10 := 1]
            && s.accounts[10].head == 2
            && s.blocks[1].block == EXAMPLE.genesis
            && s.blocks[2] == Entry(SEND_ALL, 2, Details(EPOCH_0, true, false, false), 1)
  {
  }

  lemma ExampleSend()
    ensures NetworkOk(EXAMPLE) && Sound(EXAMPLE, Genesis(EXAMPLE))
    ensures Check(EXAMPLE, Genesis(EXAMPLE), SEND_ALL, Unknown) == Progress && Sound(EXAMPLE, Sent())
  {
    GenesisIsSound(EXAMPLE);
    var s := Genesis(EXAMPLE);
    assert Check(EXAMPLE, s, SEND_ALL, Unknown) == Progress && !OpensOnForeignBlock(s, SEND_ALL);
    ProcessKeepsSound(EXAMPLE, s, SEND_ALL, Unknown);
  }

  const OPEN_ON_FOREIGN: Block := Block(3, 20, 2, 0, 0, 99, false, true, 0)

  lemma ForeignPassesChecks(s: Store)
    requires s.blocks.Keys == {1, 2} && s.blocks[2].block == SEND_ALL && s.accounts.Keys == {10}
    requires Key(20, 2) in s.pending
    ensures OpensOnForeignBlock(s, OPEN_ON_FOREIGN) && Check(EXAMPLE, s, OPEN_ON_FOREIGN, Unknown) == Progress
  {
  }

  /** The gap in the epoch checks is real: account 20 is opened on top of account 10's block. */
  lemma ForeignOpeningIsAccepted()
    ensures Sound(EXAMPLE, Sent())
    ensures Check(EXAMPLE, Sent(), OPEN_ON_FOREIGN, Unknown) == Progress
    ensures !Sound(EXAMPLE, Applied(EXAMPLE, Sent(), OPEN_ON_FOREIGN))
  {
    ExampleSend();
    SentTables();
    ForeignPassesChecks(Sent());
    ForeignOpeningBreaksChains(EXAMPLE, Sent(), OPEN_ON_FOREIGN);
  }

  const RECEIVE_ALL: Block := Block(3, 20, 0, 20, GENESIS_AMOUNT, 2, true, false, 0)

  /** What accepting that receive on such a store gives. */
  lemma ReceiveTables(s: Store)
    requires s.pending == map[Key(20, 2) := Pending(10, GENESIS_AMOUNT, EPOCH_0)]
    requires s.accounts.Keys == {10} && s.blocks.Keys == {1, 2} && s.heights == map[10 := 1]
    ensures Check(EXAMPLE, s, RECEIVE_ALL, Unknown) == Progress && !OpensOnForeignBlock(s, RECEIVE_ALL)
    ensures var s' := Applied(EXAMPLE, s, RECEIVE_ALL);
            && s'.pending == map[] && s'.heights == map[10 := 1, 20 := 0]
            && s'.accounts.Keys == {10, 20} && s'.blocks.Keys == {1, 2, 3}
            && s'.accounts[10] == s.accounts[10] && s'.accounts[20].head == 3 && s'.accounts[20].blockCount == 1
            && s'.blocks[1] == s.blocks[1] && s'.blocks[2] == s.blocks[2]
            && s'.blocks[3].block == RECEIVE_ALL && s'.blocks[3].details.isReceive && s'.blocks[3].height == 1
  {
  }

  /** The receive cemented, the send not. */
  function Stuck(): Store {
    Cemented(Applied(EXAMPLE, Sent(), RECEIVE_ALL), 20, 1)
  }

  ghost predicate LooksStuck(s: Store) {
    && Shape(EXAMPLE, s) && Supply(s) == GENESIS_AMOUNT
    && s.blocks.Keys == {1, 2, 3} && s.heights == map[10 := 1, 20 := 1]
    && s.blocks[1].block == EXAMPLE.genesis && s.blocks[1].height == 1
    && s.blocks[2] == Entry(SEND_ALL, 2, Details(EPOCH_0, true, false, false), 1)
    && s.blocks[3].block == RECEIVE_ALL && s.blocks[3].details.isReceive && s.blocks[3].height == 1
  }

  lemma CementedLooksStuck(s: Store)
    requires Sound(EXAMPLE, s) && s.heights == map[10 := 1, 20 := 0] && s.blocks.Keys == {1, 2, 3}
    requires 20 in s.accounts && s.accounts[20].blockCount == 1
    requires s.blocks[1].block == EXAMPLE.genesis
    requires s.blocks[2] == Entry(SEND_ALL, 2, Details(EPOCH_0, true, false, false), 1)
    requires s.blocks[3].block == RECEIVE_ALL && s.blocks[3].details.isReceive && s.blocks[3].height == 1
    ensures LooksStuck(Cemented(s, 20, 1))
  {
    CementKeepsShape(EXAMPLE, s, 20, 1);
    CementKeepsMoney(s, 20, 1);
    assert EntryOk(EXAMPLE, s, 1);
  }

  lemma StuckTables()
    ensures Check(EXAMPLE, Sent(), RECEIVE_ALL, Unknown) == Progress && LooksStuck(Stuck())
  {
    ExampleSend();
    SentTables();
    ReceiveTables(Sent());
    ProcessKeepsSound(EXAMPLE, Sent(), RECEIVE_ALL, Unknown);
    CementedLooksStuck(Applied(EXAMPLE, Sent(), RECEIVE_ALL));
  }

  /** A skeleton of the genesis block and the receive alone has everything twice. */
  lemma TwiceTheSupply(s: Store)
    requires Skeleton(EXAMPLE, s) && s.blocks.Keys == {1, 3}
    requires s.blocks[1].block == EXAMPLE.genesis
    requires s.blocks[3].block == RECEIVE_ALL && s.blocks[3].details.isReceive
    ensures Supply(s) == 2 * GENESIS_AMOUNT
  {
    assert EntryOk(EXAMPLE, s, 1) && EntryOk(EXAMPLE, s, 3);
    assert HeadOk(s, 10) && HeadOk(s, 20);
    forall a | a in s.accounts ensures a == 10 || a == 20 { assert HeadOk(s, a); }
    forall k ensures k !in s.pending { assert k in s.pending ==> PendingOk(s, k); }
    assert Amounts(s) == map[];
    var none: map<Account, int> := map[];
    var one := none[10 := GENESIS_AMOUNT as int];
    SumUpdate(none, 10, GENESIS_AMOUNT);
    SumUpdate(one, 20, GENESIS_AMOUNT);
    assert Balances(s) == one[20 := GENESIS_AMOUNT as int];
  }

  /** Rolling the send back leaves the receive without it, and the supply doubled. */
  lemma SwallowedErrorDoublesSupply(s: Store, s': Store)
    requires LooksStuck(s) && RolledBack(EXAMPLE, s, 2, s')
    ensures !Confirmed(s, 2) && !Free(s, 2)
    ensures s'.blocks.Keys == {1, 3} && !Shape(EXAMPLE, s') && Supply(s') == 2 * GENESIS_AMOUNT
  {
    assert Confirmed(s, 1) && !Confirmed(s, 2) && Confirmed(s, 3);
    assert s'.blocks.Keys == {1, 3};
    TwiceTheSupply(s');
    RollbackIsRightIff(EXAMPLE, s, 2, s');
  }

  method MakeSent() returns (ledger: Ledger)
    ensures fresh(ledger) && ledger.net == EXAMPLE && ledger.View() == Sent()
  {
    ExampleSend();
    ledger := new Ledger(EXAMPLE);
    var _ := ledger.Process(SEND_ALL, Unknown);
  }

  /** That ledger, as the program makes it: two blocks arrive and the receive is cemented. */
  method MakeStuck() returns (ledger: Ledger)
    ensures fresh(ledger) && ledger.net == EXAMPLE && ledger.View() == Stuck()
  {
    ledger := MakeSent();
    ExampleSend();
    StuckTables();
    var _ := ledger.Process(RECEIVE_ALL, Unknown);
    ledger.SetConfirmationHeight(20, 1);
  }

  /** And what its rollback of the send does: no error, and twice the supply. */
  method RunSwallowedError() returns (ledger: Ledger, error: bool)
    ensures !error && ledger.net == EXAMPLE && Supply(ledger.View()) == 2 * GENESIS_AMOUNT
  {
    ledger := MakeStuck();
    StuckTables();
    ghost var s := ledger.View();
    error := ledger.Rollback(2);
    SwallowedErrorDoublesSupply(s, ledger.View());
  }
}

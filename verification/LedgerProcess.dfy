/** Accepting a block keeps the ledger in shape, moves no money in or out, and keeps the weights exact. */
module LedgerProcess {
  import opened Common
  import opened LedgerModel
  import opened LedgerInvariant
  import opened MapSums

  /** What acceptance establishes about a block. */
  predicate Lands(net: Network, s: Store, b: Block) {
    var a := b.account;
    var d := DetailsOf(net, s, b);
    && RealHash(net, b.hash) && b.hash !in s.blocks
    && b.previous == (if a in s.accounts then s.accounts[a].head else 0)
    && (d.isSend ==> a in s.accounts && b.balance < Balance(s, a) && !d.isReceive && !d.isEpoch)
    && (d.isReceive ==>
          && b.link != 0 && b.link !in net.epochs && b.link in s.blocks
          && Key(a, b.link) in s.pending && !d.isEpoch
          && b.balance == Balance(s, a) + s.pending[Key(a, b.link)].amount)
    && (!d.isSend && !d.isReceive ==> b.balance == Balance(s, a) && (b.link == 0 || b.link in net.epochs))
    && (d.isEpoch ==> if a in s.accounts then b.representative == s.accounts[a].representative else b.balance == 0)
    && (!d.isEpoch && !d.isReceive && !d.isSend ==> b.link == 0)
  }

  /**
  The one gap in the checks: an epoch block may open an account on top of somebody
  else's block, because only the zero balance and the representative are looked at.
  */
  predicate OpensOnForeignBlock(s: Store, b: Block) {
    b.account !in s.accounts && b.previous != 0
  }

  lemma AcceptedLands(net: Network, s: Store, b: Block, v: Verification)
    requires NetworkOk(net) && Shape(net, s) && RealHash(net, b.hash)
    requires Check(net, s, b, v) == Progress && !OpensOnForeignBlock(s, b)
    ensures Lands(net, s, b)
  {
    if b.account in s.accounts {
      assert HeadOk(s, b.account);
    }
    if b.link in s.blocks {
      assert EntryOk(net, s, b.link);
    }
  }

  // ------------------------------------------------------------------- the shape

  /** The blocks that were there keep their predecessors, their balances and their amounts. */
  lemma OldBlocksStay(net: Network, s: Store, b: Block, h: Hash)
    requires Shape(net, s) && Lands(net, s, b) && h in s.blocks
    ensures var s' := Applied(net, s, b);
            && h in s'.blocks && s'.blocks[h] == s.blocks[h] && h != b.hash
            && BalanceAt(s', h) == BalanceAt(s, h)
            && BalanceAt(s', s.blocks[h].block.previous) == BalanceAt(s, s.blocks[h].block.previous)
            && PendingFor(s', h) == PendingFor(s, h)
  {
    assert EntryOk(net, s, h);
  }

  /** The new block's predecessor is the old head. */
  lemma NewBlock(net: Network, s: Store, b: Block)
    requires Shape(net, s) && Lands(net, s, b)
    ensures var s' := Applied(net, s, b);
            && b.hash in s'.blocks
            && BalanceAt(s', b.previous) == Balance(s, b.account)
            && EntryOk(net, s', b.hash)
  {
    assert 0 in s.blocks ==> EntryOk(net, s, 0);
    if b.account in s.accounts {
      assert HeadOk(s, b.account);
      assert EntryOk(net, s, b.previous);
    }
  }

  lemma AppliedChains(net: Network, s: Store, b: Block)
    requires Shape(net, s) && Lands(net, s, b)
    ensures Chains(net, Applied(net, s, b)) && NoForks(Applied(net, s, b))
  {
    var s' := Applied(net, s, b);
    NewBlock(net, s, b);
    forall h | h in s'.blocks
      ensures EntryOk(net, s', h)
      ensures h != b.hash ==> !SameSpot(s', h, b.hash)
    {
      if h != b.hash {
        OldBlocksStay(net, s, b, h);
        assert EntryOk(net, s, h);
      }
    }
    forall h, k | h in s'.blocks && k in s'.blocks && SameSpot(s', h, k)
      ensures h == k
    {
      if h != b.hash && k != b.hash {
        assert SameSpot(s, h, k);
      }
    }
  }

  lemma AppliedHeads(net: Network, s: Store, b: Block)
    requires Shape(net, s) && Lands(net, s, b)
    ensures Heads(net, Applied(net, s, b)) && GenesisKept(net, Applied(net, s, b))
  {
    var s' := Applied(net, s, b);
    NewBlock(net, s, b);
    forall a | a in s'.accounts
      ensures HeadOk(s', a)
    {
      if a in s.accounts {
        assert HeadOk(s, a);
      }
    }
    assert EntryOk(net, s, net.genesis.hash);
  }

  lemma AppliedTransfers(net: Network, s: Store, b: Block)
    requires Shape(net, s) && Lands(net, s, b)
    ensures Pendings(Applied(net, s, b)) && Receives(Applied(net, s, b))
  {
    var s' := Applied(net, s, b);
    NewBlock(net, s, b);
    forall k | k in s'.pending
      ensures PendingOk(s', k)
    {
      if k in s.pending {
        assert PendingOk(s, k);
        OldBlocksStay(net, s, b, k.hash);
      }
    }
    forall h | IsReceive(s', h)
      ensures ReceiveOk(s', h)
    {
      if h == b.hash {
        assert PendingOk(s, Key(b.account, b.link));
        assert EntryOk(net, s, b.link);
        OldBlocksStay(net, s, b, b.link);
      } else {
        OldBlocksStay(net, s, b, h);
        assert ReceiveOk(s, h);
        OldBlocksStay(net, s, b, s.blocks[h].block.link);
      }
    }
  }

  /** What an accepted receive takes, no stored block has taken. */
  lemma NotYetReceived(net: Network, s: Store, b: Block, r: Hash)
    requires Shape(net, s) && Lands(net, s, b) && DetailsOf(net, s, b).isReceive && IsReceive(s, r)
    ensures s.blocks[r].block.link != b.link
  {
    assert ReceiveOk(s, r);
    assert PendingOk(s, Key(b.account, b.link));
  }

  lemma AppliedReceivedOnce(net: Network, s: Store, b: Block)
    requires Shape(net, s) && Lands(net, s, b)
    ensures ReceivedOnce(Applied(net, s, b))
  {
    var s' := Applied(net, s, b);
    forall h, k | SameSource(s', h, k)
      ensures h == k
    {
      if h != b.hash && k != b.hash {
        assert SameSource(s, h, k);
      } else if h != b.hash {
        NotYetReceived(net, s, b, h);
      } else if k != b.hash {
        NotYetReceived(net, s, b, k);
      }
    }
  }

  lemma AppliedSends(net: Network, s: Store, b: Block)
    requires Shape(net, s) && Lands(net, s, b)
    ensures Sends(Applied(net, s, b))
  {
    var s' := Applied(net, s, b);
    forall h | IsSend(s', h)
      ensures SendOk(s', h)
    {
      if h != b.hash {
        assert SendOk(s, h);
        if Key(s.blocks[h].block.link, h) in s.pending {
          if Key(s.blocks[h].block.link, h) !in s'.pending {
            assert ReceivesFrom(s', b.hash, h);
          }
        } else {
          var r :| ReceivesFrom(s, r, h);
          assert ReceivesFrom(s', r, h);
        }
      }
    }
  }

  /** Accepting a block keeps the ledger in shape. */
  lemma AppliedKeepsShape(net: Network, s: Store, b: Block)
    requires Shape(net, s) && Lands(net, s, b)
    ensures Shape(net, Applied(net, s, b))
  {
    AppliedChains(net, s, b);
    AppliedHeads(net, s, b);
    AppliedTransfers(net, s, b);
    AppliedReceivedOnce(net, s, b);
    AppliedSends(net, s, b);
    ReceivesAreLoose(Applied(net, s, b));
  }

  // ------------------------------------------------------- money and weights

  /** What an accepted block does to the sum of the pending amounts. */
  lemma AppliedAmounts(net: Network, s: Store, b: Block)
    requires Shape(net, s) && Lands(net, s, b)
    ensures Sum(Amounts(Applied(net, s, b))) == Sum(Amounts(s)) + Balance(s, b.account) - b.balance
  {
    var s', d := Applied(net, s, b), DetailsOf(net, s, b);
    var sent, taken := Key(b.link, b.hash), Key(b.account, b.link);
    if d.isSend {
      assert sent in s.pending ==> PendingOk(s, sent);
      assert Amounts(s') == Amounts(s)[sent := Balance(s, b.account) - b.balance];
      SumUpdate(Amounts(s), sent, Balance(s, b.account) - b.balance);
    } else if d.isReceive {
      assert Amounts(s') == Amounts(s) - {taken};
      SumDrop(Amounts(s), taken);
    } else {
      assert Amounts(s') == Amounts(s);
    }
  }

  /** Accepting a block moves money between accounts and the pending table, and nowhere else. */
  lemma AppliedConservesSupply(net: Network, s: Store, b: Block)
    requires Shape(net, s) && Lands(net, s, b)
    ensures Supply(Applied(net, s, b)) == Supply(s)
  {
    AppliedAmounts(net, s, b);
    assert Balances(Applied(net, s, b)) == Balances(s)[b.account := b.balance];
    SumUpdate(Balances(s), b.account, b.balance);
  }

  /** The change in delegated balances when account `a` goes from one entry to another. */
  lemma DelegatedUpdate(s: Store, s': Store, a: Account, r: Account)
    requires a in s'.accounts && s'.accounts == s.accounts[a := s'.accounts[a]]
    ensures Delegated(s', r) == Delegated(s, r)
              - (if a in s.accounts && s.accounts[a].representative == r then s.accounts[a].balance else 0)
              + (if s'.accounts[a].representative == r then s'.accounts[a].balance else 0)
  {
    var now := if s'.accounts[a].representative == r then s'.accounts[a].balance as int else 0;
    assert Delegations(s', r) == Delegations(s, r)[a := now];
    SumUpdate(Delegations(s, r), a, now);
  }

  lemma DelegatedDrop(s: Store, s': Store, a: Account, r: Account)
    requires s'.accounts == s.accounts - {a}
    ensures Delegated(s', r) == Delegated(s, r)
              - (if a in s.accounts && s.accounts[a].representative == r then s.accounts[a].balance else 0)
  {
    assert Delegations(s', r) == Delegations(s, r) - {a};
    SumDrop(Delegations(s, r), a);
  }

  /** No representative can hold more than the supply. */
  lemma DelegatedBounds(s: Store, r: Account)
    ensures 0 <= Delegated(s, r) <= Supply(s)
  {
    SumNonNegative(Delegations(s, r));
    SumNonNegative(Amounts(s));
    SumDominates(Delegations(s, r), Balances(s));
  }

  lemma {:induction false} SumDominates<K>(m: map<K, int>, n: map<K, int>)
    requires m.Keys == n.Keys && forall k :: k in m ==> m[k] <= n[k]
    ensures Sum(m) <= Sum(n)
    decreases |m|
  {
    if m == map[] {
      assert n == map[];
    } else {
      var k :| k in m;
      SumRemove(m, k);
      SumRemove(n, k);
      SumDominates(m - {k}, n - {k});
    }
  }

  /** One `representation_add`. */
  lemma AddWeightMod(weights: map<Account, Amount>, q: Account, delta: int, r: Account, d: int)
    ensures (WeightIn(AddWeight(weights, q, delta), r) - (d + (if q == r then delta else 0))) % TWO_128
         == (WeightIn(weights, r) - d) % TWO_128
  {
  }

  /** Two of them, set off by the same change in what is delegated. */
  lemma AddTwiceMod(weights: map<Account, Amount>, weights': map<Account, Amount>,
                    p: Account, gone: int, q: Account, come: int, r: Account, d: int, d': int)
    requires weights' == AddWeight(AddWeight(weights, p, gone), q, come)
    requires d' == d + (if p == r then gone else 0) + (if q == r then come else 0)
    ensures (WeightIn(weights', r) - d') % TWO_128 == (WeightIn(weights, r) - d) % TWO_128
  {
    AddWeightMod(weights, p, gone, r, d);
    AddWeightMod(AddWeight(weights, p, gone), q, come, r, d + if p == r then gone else 0);
  }

  /** Without drift the cached weights are exact, because no sum of balances reaches 2^128. */
  lemma ExactIsNoDrift(s: Store)
    requires Supply(s) == GENESIS_AMOUNT
    ensures WeightsExact(s) <==> forall r :: Drift(s, r) == 0
  {
    forall r
      ensures WeightOf(s, r) == Delegated(s, r) <==> Drift(s, r) == 0
    {
      DelegatedBounds(s, r);
    }
  }

  /** Moving an account's balance from one representative to another. */
  lemma MoveKeepsDrift(s: Store, s': Store, a: Account, r: Account)
    requires a in s.accounts && a in s'.accounts && s'.accounts == s.accounts[a := s'.accounts[a]]
    requires s'.weights == AddWeight(AddWeight(s.weights, s.accounts[a].representative, 0 - s.accounts[a].balance),
                                     s'.accounts[a].representative, s'.accounts[a].balance)
    ensures Drift(s', r) == Drift(s, r)
  {
    var from, to := s.accounts[a], s'.accounts[a];
    DelegatedUpdate(s, s', a, r);
    AddTwiceMod(s.weights, s'.weights, from.representative, 0 - from.balance, to.representative, to.balance, r,
                Delegated(s, r), Delegated(s', r));
  }

  lemma OpenKeepsDrift(s: Store, s': Store, a: Account, r: Account)
    requires a !in s.accounts && a in s'.accounts && s'.accounts == s.accounts[a := s'.accounts[a]]
    requires s'.weights == AddWeight(s.weights, s'.accounts[a].representative, s'.accounts[a].balance)
    ensures Drift(s', r) == Drift(s, r)
  {
    DelegatedUpdate(s, s', a, r);
    AddWeightMod(s.weights, s'.accounts[a].representative, s'.accounts[a].balance, r, Delegated(s, r));
  }

  lemma CloseKeepsDrift(s: Store, s': Store, a: Account, r: Account)
    requires a in s.accounts && s'.accounts == s.accounts - {a}
    requires s'.weights == AddWeight(s.weights, s.accounts[a].representative, 0 - s.accounts[a].balance)
    ensures Drift(s', r) == Drift(s, r)
  {
    DelegatedDrop(s, s', a, r);
    AddWeightMod(s.weights, s.accounts[a].representative, 0 - s.accounts[a].balance, r, Delegated(s, r));
  }

  lemma AppliedDriftAt(net: Network, s: Store, b: Block, r: Account)
    requires Shape(net, s) && Lands(net, s, b)
    ensures Drift(Applied(net, s, b), r) == Drift(s, r)
  {
    var s' := Applied(net, s, b);
    assert s'.accounts == s.accounts[b.account := s'.accounts[b.account]];
    if DetailsOf(net, s, b).isEpoch {
      DelegatedUpdate(s, s', b.account, r);
    } else if b.account in s.accounts {
      assert HeadOk(s, b.account) && EntryOk(net, s, s.accounts[b.account].head);
      MoveKeepsDrift(s, s', b.account, r);
    } else {
      OpenKeepsDrift(s, s', b.account, r);
    }
  }

  /** The weights move as the delegated balances do. */
  lemma AppliedKeepsDrift(net: Network, s: Store, b: Block)
    requires Shape(net, s) && Lands(net, s, b)
    ensures SameDrift(s, Applied(net, s, b))
  {
    forall r
      ensures Drift(Applied(net, s, b), r) == Drift(s, r)
    {
      AppliedDriftAt(net, s, b, r);
    }
  }

  // -------------------------------------------------------------- the theorem

  /** A ledger whose books balance. */
  ghost predicate Sound(net: Network, s: Store) {
    Shape(net, s) && Supply(s) == GENESIS_AMOUNT && WeightsExact(s) && ConfirmedClosed(s)
  }

  /**
  Whatever block arrives, and whatever the verdict, the ledger stays sound:
  except that an epoch block may open an account on a foreign block.
  */
  lemma ProcessKeepsSound(net: Network, s: Store, b: Block, v: Verification)
    requires NetworkOk(net) && Sound(net, s) && RealHash(net, b.hash)
    ensures Sound(net, Process(net, s, b, v).1)
        <==> !(Check(net, s, b, v) == Progress && OpensOnForeignBlock(s, b))
  {
    if Check(net, s, b, v) == Progress {
      var s' := Applied(net, s, b);
      if OpensOnForeignBlock(s, b) {
        ForeignOpeningBreaksChains(net, s, b);
      } else {
        AcceptedLands(net, s, b, v);
        AppliedKeepsShape(net, s, b);
        AppliedConservesSupply(net, s, b);
        ExactIsNoDrift(s);
        AppliedKeepsDrift(net, s, b);
        ExactIsNoDrift(s');
        AppliedKeepsConfirmedClosed(net, s, b);
      }
    }
  }

  lemma AppliedKeepsConfirmedClosed(net: Network, s: Store, b: Block)
    requires Shape(net, s) && Lands(net, s, b) && ConfirmedClosed(s)
    ensures ConfirmedClosed(Applied(net, s, b))
  {
    var s' := Applied(net, s, b);
    forall h | ConfirmedReceive(s', h)
      ensures Confirmed(s', s'.blocks[h].block.link)
    {
      assert b.account in s.accounts ==> HeadOk(s, b.account);
      assert EntryOk(net, s, h) && ReceiveOk(s, h) && ConfirmedReceive(s, h);
      assert EntryOk(net, s, s.blocks[h].block.link);
    }
  }

  lemma ForeignOpeningBreaksChains(net: Network, s: Store, b: Block)
    requires Shape(net, s) && OpensOnForeignBlock(s, b)
    ensures !Chains(net, Applied(net, s, b))
  {
    var s' := Applied(net, s, b);
    assert b.previous in s.blocks ==> EntryOk(net, s, b.previous);
    assert Chains(net, s') ==> EntryOk(net, s', b.hash);
  }
}

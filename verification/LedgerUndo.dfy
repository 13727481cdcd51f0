/** Rolling back an account's head block: the exact inverse of accepting it. */
module LedgerUndo {
  import opened Common
  import opened LedgerModel
  import opened LedgerInvariant
  import opened LedgerProcess
  import opened MapSums

  function Head(s: Store, a: Account): Hash {
    if a in s.accounts then s.accounts[a].head else 0
  }

  /** The head block is not cemented, and what it sent is still unspent. */
  predicate Undoable(s: Store, a: Account) {
    && a in s.accounts
    && !Confirmed(s, Head(s, a))
    && (IsSend(s, Head(s, a)) ==> Key(s.blocks[Head(s, a)].block.link, Head(s, a)) in s.pending)
  }

  /**
  The head block is not cemented, and whoever received what it sent is: where the
  visitor's inner loop ends, the send pending again or the rollback of its receiver refused.
  */
  ghost predicate Removable(s: Store, a: Account) {
    && a in s.accounts
    && !Confirmed(s, Head(s, a))
    && forall r {:trigger ReceivesFrom(s, r, Head(s, a))} :: ReceivesFrom(s, r, Head(s, a)) ==> Confirmed(s, r)
  }

  /** A pending send has no receiver. */
  lemma PendingIsUnreceived(net: Network, s: Store, h: Hash)
    requires Skeleton(net, s) && IsSend(s, h) && Key(s.blocks[h].block.link, h) in s.pending
    ensures forall r :: !ReceivesFrom(s, r, h)
  {
    forall r ensures !ReceivesFrom(s, r, h) { assert IsReceive(s, r) ==> LooseOk(s, r); }
  }

  lemma UndoableIsRemovable(net: Network, s: Store, a: Account)
    requires Skeleton(net, s) && Undoable(s, a)
    ensures Removable(s, a)
  {
    HeadFacts(net, s, a);
    if IsSend(s, Head(s, a)) {
      PendingIsUnreceived(net, s, Head(s, a));
    } else {
      forall r ensures !ReceivesFrom(s, r, Head(s, a)) { assert IsReceive(s, r) ==> LooseOk(s, r); }
    }
  }

  /** The two tests the visitor makes on a block tell what its stored details say. */
  lemma VisitorReadsKind(net: Network, s: Store, h: Hash)
    requires Skeleton(net, s) && h in s.blocks && h != net.genesis.hash
    ensures var b := s.blocks[h].block;
            && (b.balance < BalanceAt(s, b.previous) <==> IsSend(s, h))
            && (b.balance >= BalanceAt(s, b.previous) && b.link != 0 && b.link !in net.epochs <==> IsReceive(s, h))
            && (IsReceive(s, h) && !Orphaned(s, h) ==> ReceiveOk(s, h))
  {
    assert EntryOk(net, s, h);
    assert IsReceive(s, h) ==> LooseOk(s, h);
  }

  lemma HeadFacts(net: Network, s: Store, a: Account)
    requires Skeleton(net, s) && a in s.accounts
    ensures var h := Head(s, a);
            && h in s.blocks && HeadOk(s, a) && EntryOk(net, s, h)
            && (!Confirmed(s, h) ==> h != net.genesis.hash && !Orphaned(s, h))
  {
    assert HeadOk(s, a);
    assert EntryOk(net, s, s.accounts[a].head);
    assert IsReceive(s, Head(s, a)) ==> LooseOk(s, Head(s, a));
  }

  /** Nothing that stays is on top of the head block, and only cemented receives are left of what it sent. */
  lemma NothingDependsOnHead(net: Network, s: Store, a: Account, h: Hash)
    requires Skeleton(net, s) && Removable(s, a) && h in s.blocks && h != Head(s, a)
    ensures EntryOk(net, s, h)
    ensures s.blocks[h].block.previous != Head(s, a)
    ensures IsReceive(s, h) && s.blocks[h].block.link == Head(s, a) ==> Confirmed(s, h)
    ensures s.blocks[h].block.account == a ==> s.blocks[h].height < s.accounts[a].blockCount
  {
    HeadFacts(net, s, a);
    assert EntryOk(net, s, h);
    assert ReceivesFrom(s, h, Head(s, a)) ==> Confirmed(s, h);
    assert SameSpot(s, h, Head(s, a)) ==> h == Head(s, a);
  }

  /** The blocks that stay keep their predecessors, their balances, their amounts and their confirmation. */
  lemma RestStays(net: Network, s: Store, a: Account, h: Hash)
    requires Skeleton(net, s) && Removable(s, a) && h in s.blocks && h != Head(s, a)
    requires Head(s, a) in s.blocks
    ensures var s' := Undone(net, s, a);
            && h in s'.blocks && s'.blocks[h] == s.blocks[h]
            && BalanceAt(s', s.blocks[h].block.previous) == BalanceAt(s, s.blocks[h].block.previous)
            && PendingFor(s', h) == PendingFor(s, h)
            && s.blocks[h].block.account in s'.accounts
            && (Confirmed(s', h) <==> Confirmed(s, h))
  {
    NothingDependsOnHead(net, s, a, h);
    HeadFacts(net, s, a);
  }

  lemma UndoneChains(net: Network, s: Store, a: Account)
    requires Skeleton(net, s) && Removable(s, a) && Head(s, a) in s.blocks
    ensures Chains(net, Undone(net, s, a)) && NoForks(Undone(net, s, a))
  {
    var s' := Undone(net, s, a);
    forall h | h in s'.blocks
      ensures EntryOk(net, s', h)
    {
      NothingDependsOnHead(net, s, a, h);
      RestStays(net, s, a, h);
    }
    forall h, k | h in s'.blocks && k in s'.blocks && SameSpot(s', h, k)
      ensures h == k
    {
      assert SameSpot(s, h, k);
    }
  }

  lemma UndoneHeads(net: Network, s: Store, a: Account)
    requires Skeleton(net, s) && Removable(s, a) && Head(s, a) in s.blocks
    ensures Heads(net, Undone(net, s, a)) && GenesisKept(net, Undone(net, s, a))
  {
    var s' := Undone(net, s, a);
    HeadFacts(net, s, a);
    forall c | c in s'.accounts
      ensures HeadOk(s', c)
    {
      assert HeadOk(s, c);
      RestStays(net, s, a, s'.accounts[c].head);
    }
    RestStays(net, s, a, net.genesis.hash);
  }

  lemma UndoneTransfers(net: Network, s: Store, a: Account)
    requires Skeleton(net, s) && Removable(s, a) && Head(s, a) in s.blocks
    ensures Pendings(Undone(net, s, a))
  {
    var s' := Undone(net, s, a);
    var top := Head(s, a);
    HeadFacts(net, s, a);
    VisitorReadsKind(net, s, top);
    forall k | k in s'.pending
      ensures PendingOk(s', k)
    {
      if k == Key(a, s.blocks[top].block.link) && IsReceive(s, top) {
        RestStays(net, s, a, k.hash);
      } else {
        assert PendingOk(s, k);
        RestStays(net, s, a, k.hash);
      }
    }
  }

  lemma UndoneReceives(net: Network, s: Store, a: Account)
    requires Skeleton(net, s) && Removable(s, a) && Head(s, a) in s.blocks
    ensures LooseReceives(Undone(net, s, a)) && ReceivedOnce(Undone(net, s, a))
  {
    var s' := Undone(net, s, a);
    var top := Head(s, a);
    HeadFacts(net, s, a);
    VisitorReadsKind(net, s, top);
    forall h | IsReceive(s', h)
      ensures LooseOk(s', h)
    {
      NothingDependsOnHead(net, s, a, h);
      assert LooseOk(s, h);
      RestStays(net, s, a, h);
      var source := s.blocks[h].block.link;
      if source in s.blocks && source != top {
        RestStays(net, s, a, source);
        assert SameSource(s, h, top) ==> h == top;
      }
    }
    forall h, k | SameSource(s', h, k)
      ensures h == k
    {
      assert SameSource(s, h, k);
    }
  }

  lemma UndoneSends(net: Network, s: Store, a: Account)
    requires Skeleton(net, s) && Removable(s, a) && Head(s, a) in s.blocks
    ensures Sends(Undone(net, s, a))
  {
    var s' := Undone(net, s, a);
    var top := Head(s, a);
    HeadFacts(net, s, a);
    VisitorReadsKind(net, s, top);
    forall h | IsSend(s', h)
      ensures SendOk(s', h)
    {
      assert SendOk(s, h);
      if Key(s.blocks[h].block.link, h) !in s.pending {
        var r :| ReceivesFrom(s, r, h);
        if r != top {
          assert ReceivesFrom(s', r, h);
        }
      }
    }
  }

  /** The visitor's end keeps the skeleton, whichever way the inner loop ended. */
  lemma UndoneKeepsSkeleton(net: Network, s: Store, a: Account)
    requires Skeleton(net, s) && Removable(s, a) && Head(s, a) in s.blocks
    ensures Skeleton(net, Undone(net, s, a))
  {
    UndoneChains(net, s, a);
    UndoneHeads(net, s, a);
    UndoneTransfers(net, s, a);
    UndoneReceives(net, s, a);
    UndoneSends(net, s, a);
  }

  /** Every orphan was one before. */
  ghost predicate NoNewOrphans(s: Store, s': Store) {
    forall r {:trigger Orphaned(s', r)} :: Orphaned(s', r) ==> Orphaned(s, r)
  }

  /** It makes an orphan exactly if it undoes a send that is not pending. */
  lemma UndoneOrphans(net: Network, s: Store, a: Account)
    requires Skeleton(net, s) && Removable(s, a) && Head(s, a) in s.blocks
    ensures NoNewOrphans(s, Undone(net, s, a))
       <==> !(IsSend(s, Head(s, a)) && Key(s.blocks[Head(s, a)].block.link, Head(s, a)) !in s.pending)
  {
    var s', top := Undone(net, s, a), Head(s, a);
    HeadFacts(net, s, a);
    if IsSend(s, top) && Key(s.blocks[top].block.link, top) !in s.pending {
      assert SendOk(s, top);
      var r :| ReceivesFrom(s, r, top);
      assert r != top;
      RestStays(net, s, a, r);
      assert Orphaned(s', r) && !Orphaned(s, r);
    } else {
      forall r | Orphaned(s', r)
        ensures Orphaned(s, r)
      {
        assert LooseOk(s, r);
      }
    }
  }

  lemma UndoneKeepsShape(net: Network, s: Store, a: Account)
    requires Shape(net, s) && Undoable(s, a) && Head(s, a) in s.blocks
    ensures Shape(net, Undone(net, s, a))
  {
    UndoableIsRemovable(net, s, a);
    UndoneKeepsSkeleton(net, s, a);
    UndoneOrphans(net, s, a);
    ShapeHasNoOrphans(net, s);
    ShapeHasNoOrphans(net, Undone(net, s, a));
  }

  lemma UndoneKeepsConfirmedClosed(net: Network, s: Store, a: Account)
    requires Skeleton(net, s) && Removable(s, a) && ConfirmedClosed(s) && Head(s, a) in s.blocks
    ensures ConfirmedClosed(Undone(net, s, a))
  {
    var s' := Undone(net, s, a);
    forall h | ConfirmedReceive(s', h)
      ensures Confirmed(s', s'.blocks[h].block.link)
    {
      RestStays(net, s, a, h);
      assert ConfirmedReceive(s, h);
      RestStays(net, s, a, s.blocks[h].block.link);
    }
  }

  lemma UndoneBalances(net: Network, s: Store, a: Account)
    requires Skeleton(net, s) && a in s.accounts && Head(s, a) in s.blocks
    ensures var b := s.blocks[Head(s, a)].block;
            Sum(Balances(Undone(net, s, a))) == Sum(Balances(s)) - b.balance + BalanceAt(s, b.previous)
  {
    var s' := Undone(net, s, a);
    HeadFacts(net, s, a);
    var b := s.blocks[Head(s, a)].block;
    var before := BalanceAt(s, b.previous);
    if b.previous == 0 {
      assert 0 in s.blocks ==> EntryOk(net, s, 0);
      assert Balances(s') == Balances(s) - {a};
      SumDrop(Balances(s), a);
    } else {
      assert Balances(s') == Balances(s)[a := before];
      SumUpdate(Balances(s), a, before);
    }
  }

  lemma UndoneAmounts(net: Network, s: Store, a: Account)
    requires Skeleton(net, s) && a in s.accounts && Head(s, a) in s.blocks && Head(s, a) != net.genesis.hash
    requires !Orphaned(s, Head(s, a))
    ensures var top := Head(s, a);
            var b := s.blocks[top].block;
            Sum(Amounts(Undone(net, s, a))) == Sum(Amounts(s)) + b.balance - BalanceAt(s, b.previous)
              + (if IsSend(s, top) && Key(b.link, top) !in s.pending then PendingFor(s, top).amount else 0)
  {
    var s' := Undone(net, s, a);
    var top := Head(s, a);
    HeadFacts(net, s, a);
    VisitorReadsKind(net, s, top);
    var b := s.blocks[top].block;
    var change := b.balance - BalanceAt(s, b.previous);
    var sent, taken := Key(b.link, top), Key(a, b.link);
    if IsSend(s, top) {
      assert sent in s.pending ==> PendingOk(s, sent);
      assert Amounts(s') == Amounts(s) - {sent};
      SumDrop(Amounts(s), sent);
    } else if IsReceive(s, top) {
      assert Amounts(s') == Amounts(s)[taken := change];
      SumUpdate(Amounts(s), taken, change);
    } else {
      assert Amounts(s') == Amounts(s);
    }
  }

  /**
  What undoing a head block does to the supply, however the visitor's inner loop
  ended: nothing, unless it undoes a send that somebody has received.
  */
  lemma UndoneSupply(net: Network, s: Store, a: Account)
    requires Skeleton(net, s) && a in s.accounts && Head(s, a) in s.blocks && Head(s, a) != net.genesis.hash
    requires !Orphaned(s, Head(s, a))
    ensures var top := Head(s, a);
            Supply(Undone(net, s, a)) == Supply(s)
              + (if IsSend(s, top) && Key(s.blocks[top].block.link, top) !in s.pending
                 then PendingFor(s, top).amount else 0)
  {
    UndoneBalances(net, s, a);
    UndoneAmounts(net, s, a);
  }

  lemma UndoneKeepsDrift(net: Network, s: Store, a: Account)
    requires Skeleton(net, s) && a in s.accounts && Head(s, a) in s.blocks
    ensures SameDrift(s, Undone(net, s, a))
  {
    var s' := Undone(net, s, a);
    HeadFacts(net, s, a);
    forall r
      ensures Drift(s', r) == Drift(s, r)
    {
      if s.blocks[Head(s, a)].block.previous == 0 {
        CloseKeepsDrift(s, s', a, r);
      } else {
        MoveKeepsDrift(s, s', a, r);
      }
    }
  }

  /** Undoing an undoable head keeps the ledger sound. */
  lemma UndoneKeepsSound(net: Network, s: Store, a: Account)
    requires Sound(net, s) && Undoable(s, a)
    ensures Head(s, a) in s.blocks && Sound(net, Undone(net, s, a))
  {
    HeadFacts(net, s, a);
    UndoableIsRemovable(net, s, a);
    UndoneKeepsShape(net, s, a);
    UndoneKeepsConfirmedClosed(net, s, a);
    UndoneSupply(net, s, a);
    UndoneKeepsDrift(net, s, a);
    ExactIsNoDrift(s);
    ExactIsNoDrift(Undone(net, s, a));
  }

  /** The same ledger: only the acceptance clock and zero entries among the weights may differ. */
  ghost predicate SameLedger(s: Store, s': Store) {
    && s'.blocks == s.blocks && s'.accounts == s.accounts && s'.pending == s.pending && s'.heights == s.heights
    && forall r :: WeightOf(s', r) == WeightOf(s, r)
  }

  /** The head just accepted can be rolled back. */
  lemma AppliedIsUndoable(net: Network, s: Store, b: Block)
    requires Shape(net, s) && Lands(net, s, b)
    ensures var s' := Applied(net, s, b);
            && Shape(net, s') && Undoable(s', b.account) && Head(s', b.account) == b.hash && b.hash in s'.blocks
  {
    AppliedKeepsShape(net, s, b);
    assert b.account in s.accounts ==> HeadOk(s, b.account);
  }

  lemma RestoresChains(net: Network, s: Store, b: Block)
    requires Shape(net, s) && Lands(net, s, b)
    ensures var s' := Applied(net, s, b);
            && b.hash in s'.blocks
            && var s'' := Undone(net, s', b.account);
            s''.blocks == s.blocks && s''.accounts == s.accounts && s''.heights == s.heights
  {
    assert b.account in s.accounts ==> HeadOk(s, b.account) && EntryOk(net, s, s.accounts[b.account].head);
    assert 0 in s.blocks ==> EntryOk(net, s, 0);
    var s' := Applied(net, s, b);
    var s'' := Undone(net, s', b.account);
    assert s''.blocks == s.blocks;
    assert s''.accounts == s.accounts;
    if b.account in s.accounts {
      assert s''.heights == s.heights;
    } else {
      assert s.heights.Keys == s.accounts.Keys;
      assert s''.heights == s.heights;
    }
  }

  lemma RestoresPending(net: Network, s: Store, b: Block)
    requires Shape(net, s) && Lands(net, s, b)
    ensures var s' := Applied(net, s, b); b.hash in s'.blocks && Undone(net, s', b.account).pending == s.pending
  {
    AppliedIsUndoable(net, s, b);
    var s' := Applied(net, s, b);
    assert EntryOk(net, s', b.hash);
    assert b.hash == net.genesis.hash ==> GenesisKept(net, s);
    VisitorReadsKind(net, s', b.hash);
    NewBlock(net, s, b);
    if DetailsOf(net, s, b).isReceive {
      assert PendingOk(s, Key(b.account, b.link));
      OldBlocksStay(net, s, b, b.link);
    }
    assert Key(b.link, b.hash) in s.pending ==> PendingOk(s, Key(b.link, b.hash));
  }

  /** Rolling back the block just accepted restores the ledger exactly. */
  lemma UndoInvertsProcess(net: Network, s: Store, b: Block, v: Verification)
    requires NetworkOk(net) && Sound(net, s) && RealHash(net, b.hash)
    requires Check(net, s, b, v) == Progress && !OpensOnForeignBlock(s, b)
    ensures var s' := Applied(net, s, b);
            Undoable(s', b.account) && Head(s', b.account) in s'.blocks && SameLedger(s, Undone(net, s', b.account))
  {
    AcceptedLands(net, s, b, v);
    AppliedIsUndoable(net, s, b);
    RestoresChains(net, s, b);
    RestoresPending(net, s, b);
    RestoresWeights(net, s, b);
  }

  lemma RestoresWeights(net: Network, s: Store, b: Block)
    requires Shape(net, s) && Lands(net, s, b)
    ensures var s' := Applied(net, s, b);
            b.hash in s'.blocks && forall r :: WeightOf(Undone(net, s', b.account), r) == WeightOf(s, r)
  {
    var s' := Applied(net, s, b);
    AppliedIsUndoable(net, s, b);
    RestoresChains(net, s, b);
    AppliedKeepsDrift(net, s, b);
    UndoneKeepsDrift(net, s', b.account);
    var s'' := Undone(net, s', b.account);
    forall r
      ensures WeightOf(s'', r) == WeightOf(s, r)
    {
      assert Delegations(s'', r) == Delegations(s, r);
      assert Drift(s'', r) == Drift(s', r) == Drift(s, r);
      EqualModulo(WeightOf(s'', r), WeightOf(s, r), Delegated(s, r));
    }
  }

  lemma EqualModulo(x: Amount, y: Amount, d: int)
    requires (x - d) % TWO_128 == (y - d) % TWO_128
    ensures x == y
  {
  }
}

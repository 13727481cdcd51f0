/**
The ledger is a function of its blocks: two sound ledgers that hold the same blocks
agree on every other table, however the blocks arrived or others were rolled back.
*/
module LedgerDeterminacy {
  import opened LedgerModel
  import opened LedgerInvariant
  import opened LedgerProcess
  import opened LedgerUndo
  import opened LedgerRollback
  import opened MapSums

  // ------------------------------------------------------------ stored details

  function Newer(x: nat, y: nat): nat {
    if x < y then y else x
  }

  /** The details of a block, told from the block and the entries it refers to. */
  function DetailsFrom(net: Network, s: Store, b: Block): Details {
    var before, epoch := BalanceAt(s, b.previous), VersionAt(s, b.previous);
    if b == net.genesis then Details(EPOCH_0, false, false, false)
    else if b.balance < before then Details(epoch, true, false, false)
    else if b.link in net.epochs then Details(net.epochs[b.link], false, false, true)
    else if b.link != 0 then Details(Newer(epoch, VersionAt(s, b.link)), false, true, false)
    else Details(epoch, false, false, false)
  }

  predicate DatedAt(net: Network, s: Store, h: Hash)
    requires h in s.blocks
  {
    s.blocks[h].details == DetailsFrom(net, s, s.blocks[h].block)
  }

  /** Every stored block has the details its references call for. */
  ghost predicate Dated(net: Network, s: Store) {
    forall h {:trigger DatedAt(net, s, h)} :: h in s.blocks ==> DatedAt(net, s, h)
  }

  /** The details a new block is stored with are those. */
  lemma NewBlockDated(net: Network, s: Store, b: Block)
    requires Shape(net, s) && Lands(net, s, b)
    ensures DetailsOf(net, s, b) == DetailsFrom(net, Applied(net, s, b), b)
  {
    var s', d := Applied(net, s, b), DetailsOf(net, s, b);
    assert 0 in s.blocks ==> EntryOk(net, s, 0);
    assert b.hash == net.genesis.hash ==> GenesisKept(net, s);
    if b.account in s.accounts {
      assert HeadOk(s, b.account) && EntryOk(net, s, b.previous);
      OldBlocksStay(net, s, b, b.previous);
    }
    if d.isReceive {
      assert PendingOk(s, Key(b.account, b.link));
      OldBlocksStay(net, s, b, b.link);
    }
  }

  lemma AppliedKeepsDated(net: Network, s: Store, b: Block)
    requires Shape(net, s) && Lands(net, s, b) && Dated(net, s)
    ensures Dated(net, Applied(net, s, b))
  {
    var s' := Applied(net, s, b);
    forall h | h in s'.blocks
      ensures DatedAt(net, s', h)
    {
      if h == b.hash {
        NewBlockDated(net, s, b);
      } else {
        assert DatedAt(net, s, h) && EntryOk(net, s, h);
        assert 0 in s.blocks ==> EntryOk(net, s, 0);
        assert IsReceive(s, h) ==> ReceiveOk(s, h);
      }
    }
  }

  /** What is left after a rollback refers to nothing that is gone. */
  lemma RevertedKeepsDated(net: Network, s: Store, s': Store)
    requires Shape(net, s) && Shape(net, s') && Dated(net, s)
    requires forall h :: h in s'.blocks ==> h in s.blocks && s'.blocks[h] == s.blocks[h]
    ensures Dated(net, s')
  {
    forall h | h in s'.blocks
      ensures DatedAt(net, s', h)
    {
      assert DatedAt(net, s, h) && EntryOk(net, s, h) && EntryOk(net, s', h);
      assert 0 in s.blocks ==> EntryOk(net, s, 0);
      assert IsReceive(s', h) ==> ReceiveOk(s', h);
    }
  }

  // ---------------------------------------------------- same blocks, same tables

  /** The same blocks under the same hashes; nothing is said of heights, details or order. */
  ghost predicate SameBlocks(s: Store, s': Store) {
    && s.blocks.Keys == s'.blocks.Keys
    && forall h {:trigger s'.blocks[h]} :: h in s.blocks ==> s'.blocks[h].block == s.blocks[h].block
  }

  /** Two stores to be compared. */
  ghost predicate Twins(net: Network, s: Store, s': Store) {
    && Sound(net, s) && Dated(net, s) && Sound(net, s') && Dated(net, s') && SameBlocks(s, s')
  }

  predicate SameEntry(s: Store, s': Store, h: Hash)
    requires h in s.blocks && h in s'.blocks
  {
    && s'.blocks[h].block == s.blocks[h].block
    && s'.blocks[h].height == s.blocks[h].height
    && s'.blocks[h].details == s.blocks[h].details
  }

  /** Blocks sit at the same height in both, and have the same details: by induction on the order of acceptance. */
  lemma {:induction false} EntriesAgree(net: Network, s: Store, s': Store, h: Hash)
    requires Twins(net, s, s') && h in s.blocks
    ensures SameEntry(s, s', h)
    decreases s.blocks[h].serial
  {
    var b := s.blocks[h].block;
    assert s'.blocks[h].block == b;
    assert EntryOk(net, s, h) && EntryOk(net, s', h) && DatedAt(net, s, h) && DatedAt(net, s', h);
    if b.previous != 0 {
      EntriesAgree(net, s, s', b.previous);
    }
    assert 0 in s.blocks ==> EntryOk(net, s, 0);
    if IsReceive(s, h) {
      assert ReceiveOk(s, h);
      EntriesAgree(net, s, s', b.link);
    }
  }

  /** The account table is read off the chains. */
  lemma AccountsAgree(net: Network, s: Store, s': Store, a: Account)
    requires Twins(net, s, s') && a in s.accounts
    ensures a in s'.accounts && s'.accounts[a] == s.accounts[a]
  {
    var info := s.accounts[a];
    assert HeadOk(s, a);
    EntriesAgree(net, s, s', info.head);
    EntriesAgree(net, s, s', info.openBlock);
    assert EntryOk(net, s', info.head);
    assert HeadOk(s', a);
    var head' := s'.accounts[a].head;
    EntriesAgree(net, s, s', head');
    EntriesAgree(net, s, s', s'.accounts[a].openBlock);
    assert EntryOk(net, s, head');
    assert SameSpot(s, info.head, head');
    assert SameSpot(s, info.openBlock, s'.accounts[a].openBlock);
  }

  /** The pending table is the sends that nobody received. */
  lemma PendingAgrees(net: Network, s: Store, s': Store, k: Key)
    requires Twins(net, s, s') && k in s.pending
    ensures k in s'.pending && s'.pending[k] == s.pending[k]
  {
    assert PendingOk(s, k);
    EntriesAgree(net, s, s', k.hash);
    assert SendOk(s', k.hash);
    forall r | r in s.blocks
      ensures !ReceivesFrom(s', r, k.hash)
    {
      EntriesAgree(net, s, s', r);
      assert IsReceive(s, r) ==> ReceiveOk(s, r);
    }
    assert PendingOk(s', k);
  }

  /** Two sound ledgers with the same blocks have the same accounts, pending entries and weights. */
  lemma LedgerIsItsBlocks(net: Network, s: Store, s': Store)
    requires Twins(net, s, s')
    ensures s'.accounts == s.accounts && s'.pending == s.pending
    ensures forall r :: WeightOf(s', r) == WeightOf(s, r)
    ensures forall h :: h in s.blocks ==> SameEntry(s, s', h)
  {
    forall h | h in s.blocks ensures SameEntry(s, s', h) { EntriesAgree(net, s, s', h); }
    forall a | a in s.accounts ensures a in s'.accounts && s'.accounts[a] == s.accounts[a] { AccountsAgree(net, s, s', a); }
    forall a | a in s'.accounts ensures a in s.accounts { AccountsAgree(net, s', s, a); }
    forall k | k in s.pending ensures k in s'.pending && s'.pending[k] == s.pending[k] { PendingAgrees(net, s, s', k); }
    forall k | k in s'.pending ensures k in s.pending { PendingAgrees(net, s', s, k); }
    assert s'.accounts == s.accounts;
    forall r
      ensures WeightOf(s', r) == WeightOf(s, r)
    {
      assert Delegations(s', r) == Delegations(s, r);
    }
  }
}

/** The ledger object of futurehead/secure/ledger.cpp: tables and caches updated in place. */
module LedgerObject {
  import opened Common
  import opened LedgerModel
  import opened LedgerInvariant
  import opened LedgerProcess
  import opened LedgerUndo
  import opened LedgerRollback
  import opened LedgerDeterminacy
  import LedgerVerdict

  lemma OpenAccount(net: Network, s: Store, a: Account)
    requires Skeleton(net, s)
    ensures a in s.accounts <==> a in s.heights
    ensures a in s.accounts ==> s.accounts[a].head != 0 && s.accounts[a].openBlock != 0
  {
    assert a in s.accounts ==>
      HeadOk(s, a) && EntryOk(net, s, s.accounts[a].head) && EntryOk(net, s, s.accounts[a].openBlock);
  }

  class Ledger {
    const net: Network
    var blocks: map<Hash, Entry>
    var accounts: map<Account, Info>
    var pending: map<Key, Pending>
    var heights: map<Account, nat>
    var weights: map<Account, Amount>
    var clock: nat

    /** The tables as a value. */
    function View(): Store
      reads this
    {
      Store(blocks, accounts, pending, heights, weights, clock)
    }

    constructor (net: Network)
      requires NetworkOk(net)
      ensures this.net == net && View() == Genesis(net)
    {
      this.net := net;
      var g := net.genesis;
      blocks := map[g.hash := Entry(g, 1, Details(EPOCH_0, false, false, false), 0)];
      heights := map[g.account := 1];
      accounts := map[g.account := Info(g.hash, g.representative, g.hash, g.balance, 1, EPOCH_0)];
      weights := map[g.representative := g.balance];
      pending := map[];
      clock := 1;
    }

    method RepresentationAdd(r: Account, delta: int)
      modifies this`weights
      ensures weights == AddWeight(old(weights), r, delta)
    {
      var previous := if r in weights then weights[r] else 0;
      weights := weights[r := (previous + delta) % TWO_128];
    }

    /** `change_latest`: a zero head closes the account. */
    method ChangeLatest(a: Account, oldHead: Hash, info: Info)
      requires (a in accounts <==> oldHead != 0) && (a in accounts <==> a in heights)
      requires oldHead == 0 ==> info.head != 0 && info.openBlock == info.head
      modifies this`accounts, this`heights
      ensures accounts == if info.head != 0 then old(accounts)[a := info] else old(accounts) - {a}
      ensures heights == if info.head == 0 then old(heights) - {a}
                         else if oldHead == 0 then old(heights)[a := 0] else old(heights)
    {
      if info.head != 0 {
        if oldHead == 0 && info.openBlock == info.head {
          heights := heights[a := 0];
        }
        accounts := accounts[a := info];
      } else {
        heights := heights - {a};
        accounts := accounts - {a};
      }
    }

    method UpdateWeights(b: Block, info: Info, details: Details)
      modifies this`weights
      ensures weights == AppliedWeights(old(weights), info, b, details)
    {
      if !details.isEpoch {
        if info.head != 0 {
          RepresentationAdd(info.representative, 0 - info.balance);
        }
        RepresentationAdd(b.representative, b.balance);
      }
    }

    method UpdatePending(b: Block, info: Info, details: Details)
      requires details.isSend ==> b.balance < info.balance && !details.isEpoch
      modifies this`pending
      ensures pending == AppliedPending(old(pending), info.balance, b, details)
    {
      if !details.isEpoch {
        if details.isSend {
          pending := pending[Key(b.link, b.hash) := Pending(b.account, info.balance - b.balance, details.epoch)];
        } else if b.link != 0 {
          pending := pending - {Key(b.account, b.link)};
        }
      }
    }

    /** The updates that follow when all checks have passed. */
    method Apply(b: Block, details: Details)
      requires b.hash != 0 && b.hash !in blocks
      requires b.account in accounts <==> b.account in heights
      requires b.account in accounts ==> accounts[b.account].head != 0 && accounts[b.account].openBlock != 0
      requires details.isSend ==> b.balance < Balance(View(), b.account) && !details.isEpoch
      modifies this
      ensures View() == Stored(old(View()), b, details)
    {
      var info := InfoOf(View(), b.account);
      blocks := blocks[b.hash := Entry(b, info.blockCount + 1, details, clock)];
      UpdateWeights(b, info, details);
      UpdatePending(b, info, details);
      ChangeLatest(b.account, info.head,
                   Info(b.hash, b.representative, if info.openBlock == 0 then b.hash else info.openBlock,
                        b.balance, info.blockCount + 1, details.epoch));
      clock := clock + 1;
    }

    /** `process`: the verdict of `Check`, and the effect of `Applied` on progress only. */
    method Process(b: Block, v: Verification) returns (code: Code)
      requires NetworkOk(net) && Skeleton(net, View()) && RealHash(net, b.hash)
      modifies this
      ensures (code, View()) == LedgerModel.Process(net, old(View()), b, v)
      ensures old(Shape(net, View())) ==> LedgerVerdict.Ground(net, old(View()), b, v, code)
    {
      if Shape(net, View()) {
        LedgerVerdict.VerdictIff(net, View(), b, v, Check(net, View(), b, v));
      }
      code := Check(net, View(), b, v);
      if code == Progress {
        OpenAccount(net, View(), b.account);
        Apply(b, DetailsOf(net, View(), b));
      }
    }

    /** `confirmation_height_put` */
    method SetConfirmationHeight(a: Account, n: nat)
      modifies this`heights
      ensures heights == old(heights)[a := n]
    {
      heights := heights[a := n];
    }

    method RevertWeights(b: Block)
      modifies this`weights
      ensures weights == UndoneWeights(old(View()), b)
    {
      var representative := RepresentativeAt(View(), b.previous);
      var balance := BalanceAt(View(), b.previous);
      RepresentationAdd(b.representative, 0 - b.balance);
      if b.previous != 0 {
        RepresentationAdd(representative, balance);
      }
    }

    method RevertPending(a: Account, b: Block)
      modifies this`pending
      ensures pending == UndonePending(net, old(View()), a, b, BalanceAt(old(View()), b.previous))
    {
      var balance := BalanceAt(View(), b.previous);
      if b.balance < balance {
        pending := pending - {Key(b.link, b.hash)};
      } else if b.link != 0 && b.link !in net.epochs {
        var source := if b.link in blocks then blocks[b.link].block.account else 0;
        pending := pending[Key(a, b.link) := Pending(source, b.balance - balance, VersionAt(View(), b.link))];
      }
    }

    /** The end of `rollback_visitor::state_block`: the pending table, the account and the block. */
    method RemoveHead(a: Account)
      requires a in accounts && a in heights && accounts[a].head != 0 && accounts[a].head in blocks
      requires blocks[accounts[a].head].block.hash == accounts[a].head
      modifies this`pending, this`accounts, this`heights, this`blocks
      ensures View() == Undone(net, old(View()), a).(weights := weights)
    {
      var info := accounts[a];
      var b := blocks[info.head].block;
      var latest := UndoneInfo(View(), info, b);
      RevertPending(a, b);
      ChangeLatest(a, info.head, latest);
      blocks := blocks - {info.head};
    }

    /**
    The first half of `rollback_visitor::state_block`: the weights, and the
    rollback of whoever received what the head block of `a` sent.
    */
    method PrepareUndo(a: Account, ghost d: set<Hash>)
      requires Skeleton(net, View())
      requires a in accounts && accounts[a].head in blocks && !Confirmed(View(), accounts[a].head)
      requires accounts[a].head in d && UpClosed(View(), d)
      modifies this
      ensures Skeleton(net, View())
      ensures var s1 := old(View()).(weights := ShiftedWeights(old(View()), a));
              Reverted(s1, View(), d) && SameDrift(s1, View())
      ensures a in accounts && accounts[a] == old(accounts[a]) && accounts[a].head in blocks && Removable(View(), a)
      decreases clock - blocks[accounts[a].head].serial, 1
    {
      ghost var s0 := View();
      HeadFacts(net, s0, a);
      var hash := accounts[a].head;
      var b := blocks[hash].block;
      RevertWeights(b);
      AfterRevertWeights(net, s0, View(), hash, d);
      if b.balance < BalanceAt(View(), b.previous) {
        RestorePending(a, d);
      } else {
        OnlySendsAreReceived(net, View(), hash);
      }
    }

    /**
    `rollback_visitor::state_block` on the head block of `a`: rolls back whoever
    received what it sent, as far as that goes, then the block itself.
    */
    method UndoHead(a: Account, ghost d: set<Hash>)
      requires Skeleton(net, View())
      requires a in accounts && accounts[a].head in blocks && !Confirmed(View(), accounts[a].head)
      requires accounts[a].head in d && UpClosed(View(), d)
      modifies this
      ensures Skeleton(net, View())
      ensures Reverted(old(View()), View(), d) && SameDrift(old(View()), View())
      ensures old(accounts[a].head) !in blocks
      decreases clock - blocks[accounts[a].head].serial, 2
    {
      ghost var s0 := View();
      PrepareUndo(a, d);
      ghost var s2 := View();
      HeadFacts(net, s2, a);
      RemoveHead(a);
      UndoneIsReverted(net, s0, s2, View(), a, d);
    }

    /**
    The visitor's inner loop: rolls back the destination's head until the send is pending
    again or a rollback is refused.  The refusal stays in a local variable.
    */
    method RestorePending(a: Account, ghost d: set<Hash>)
      requires Skeleton(net, View())
      requires a in accounts && accounts[a].head in blocks && !Confirmed(View(), accounts[a].head)
      requires IsSend(View(), accounts[a].head)
      requires accounts[a].head in d && UpClosed(View(), d)
      modifies this
      ensures Skeleton(net, View())
      ensures Reverted(old(View()), View(), d) && SameDrift(old(View()), View())
      ensures a in accounts && accounts[a] == old(accounts[a]) && accounts[a].head in blocks
      ensures Removable(View(), a)
      decreases clock - blocks[accounts[a].head].serial, 0
    {
      var hash := accounts[a].head;
      var b := blocks[hash].block;
      var key := Key(b.link, hash);
      ghost var s := View();
      ghost var serial := blocks[hash].serial;
      assert EntryOk(net, s, hash);
      var error := false;
      while !error && key !in pending
        invariant Skeleton(net, View())
        invariant Reverted(s, View(), d) && SameDrift(s, View())
        invariant a in accounts && accounts[a] == s.accounts[a] && hash in blocks
        invariant error ==> b.link in accounts && Confirmed(View(), accounts[b.link].head)
        decreases |blocks|, if error then 0 else 1
      {
        ghost var before := View();
        StillClosed(s, before, d, d);
        ReceiverToRollBack(net, before, hash, d);
        var latest := accounts[b.link].head;
        error := RollbackWithin(latest, Later(before, d, serial));
        RevertedTwice(net, s, before, View(), Later(before, d, serial), d);
        SameTop(net, before, View(), a, Later(before, d, serial));
        if !error {
          FewerBlocks(before, View(), latest, d);
        }
      }
      StaysConfirmed(net, s, View(), d, hash);
      if error {
        ReceiverIsCemented(net, View(), hash);
      } else {
        PendingIsUnreceived(net, View(), hash);
      }
    }

    /**
    `rollback`: refuses exactly the cemented blocks.  Otherwise `h` goes, with dependents of
    it and nothing else, and no cemented block; and the supply is conserved, the ledger
    kept in shape and every dependent removed, if and only if no dependent is cemented.
    On a sound ledger that is always so, and what is left is the ledger of the blocks
    that stay (`LedgerIsItsBlocks`).
    */
    method Rollback(h: Hash) returns (error: bool)
      requires Skeleton(net, View()) && h in blocks
      modifies this
      ensures error == old(Confirmed(View(), h))
      ensures RolledBack(net, old(View()), h, View())
      ensures error ==> View() == old(View())
      ensures forall k :: k in blocks ==> k in old(blocks) && blocks[k] == old(blocks)[k]
      ensures !error ==> h !in blocks && Supply(View()) >= old(Supply(View()))
      ensures !error ==> (Supply(View()) == old(Supply(View())) <==> old(Free(View(), h)))
      ensures !error && old(Shape(net, View())) ==> (Shape(net, View()) <==> old(Free(View(), h)))
      ensures !error ==> (blocks.Keys == old(blocks.Keys) - Dependents(old(View()), h) <==> old(Free(View(), h)))
      ensures old(Sound(net, View())) ==> Sound(net, View()) && (old(Dated(net, View())) ==> Dated(net, View()))
      ensures old(Sound(net, View())) && !error ==> blocks.Keys == old(blocks.Keys) - Dependents(old(View()), h)
    {
      ghost var s := View();
      DependentsClosed(s, h);
      error := RollbackWithin(h, Dependents(s, h));
      if !error {
        RollbackIsRightIff(net, s, h, View());
      }
      if Sound(net, s) {
        RollbackKeepsSound(net, s, h, View());
        if Dated(net, s) {
          RevertedKeepsDated(net, s, View());
        }
      }
    }

    /** `rollback`, knowing a closed set of blocks it must stay within. */
    method RollbackWithin(h: Hash, ghost d: set<Hash>) returns (error: bool)
      requires Skeleton(net, View())
      requires h in blocks && h in d && UpClosed(View(), d)
      modifies this
      ensures error == old(Confirmed(View(), h))
      ensures error ==> View() == old(View())
      ensures !error ==> h !in blocks
      ensures Skeleton(net, View())
      ensures Reverted(old(View()), View(), d) && SameDrift(old(View()), View())
      decreases clock - blocks[h].serial, 3
    {
      var account := blocks[h].block.account;
      var height := blocks[h].height;
      ghost var s := View();
      error := false;
      while !error && h in blocks
        invariant Skeleton(net, View())
        invariant Reverted(s, View(), d) && SameDrift(s, View())
        invariant View() == s || !Confirmed(s, h)
        invariant error ==> View() == s && Confirmed(s, h)
        decreases |blocks|, if error then 0 else 1
      {
        ghost var before := View();
        StillClosed(s, before, d, d);
        assert EntryOk(net, before, h);
        HeadFacts(net, before, account);
        if height > heights[account] {
          Above(net, before, d, h, accounts[account].head);
          var head := accounts[account].head;
          UndoHead(account, d);
          RevertedTwice(net, s, before, View(), d, d);
          FewerBlocks(before, View(), head, d);
        } else {
          error := true;
        }
      }
    }
  }

  /** Adjusting the weights leaves everything else as it was. */
  lemma AfterRevertWeights(net: Network, s0: Store, s1: Store, h: Hash, d: set<Hash>)
    requires Skeleton(net, s0) && UpClosed(s0, d)
    requires s1 == s0.(weights := s1.weights) && h in s0.blocks && h != net.genesis.hash
    ensures Skeleton(net, s1) && UpClosed(s1, d) && Reverted(s1, s1, d)
    ensures var b := s0.blocks[h].block; b.balance < BalanceAt(s1, b.previous) <==> IsSend(s1, h)
  {
    WeightsApart(net, s0, s1.weights);
    forall x, y | x in d && DependsOn(s1, y, x) ensures y in d { assert DependsOn(s0, y, x); }
    VisitorReadsKind(net, s1, h);
  }

  lemma OnlySendsAreReceived(net: Network, s: Store, h: Hash)
    requires Skeleton(net, s) && h in s.blocks && !IsSend(s, h)
    ensures forall r :: !ReceivesFrom(s, r, h)
  {
    forall r ensures !ReceivesFrom(s, r, h) { assert IsReceive(s, r) ==> LooseOk(s, r); }
  }

  lemma FewerBlocks(s: Store, s': Store, h: Hash, d: set<Hash>)
    requires Reverted(s, s', d) && h in s.blocks && h !in s'.blocks
    ensures |s'.blocks| < |s.blocks|
  {
    assert s'.blocks.Keys <= s.blocks.Keys - {h};
    SubsetSize(s'.blocks.Keys, s.blocks.Keys - {h});
  }

  lemma {:induction false} SubsetSize(a: set<Hash>, b: set<Hash>)
    requires a <= b
    ensures |a| <= |b|
  {
    if a == {} {
    } else {
      var x :| x in a;
      SubsetSize(a - {x}, b - {x});
    }
  }

  /** The visitor's end, as one more step of the reversal. */
  lemma EndIsReverted(net: Network, s1: Store, s2: Store, s3: Store, a: Account, d: set<Hash>)
    requires Skeleton(net, s1) && Skeleton(net, s2) && Reverted(s1, s2, d)
    requires Removable(s2, a) && Head(s2, a) in s2.blocks && Head(s2, a) in d
    requires s3 == Undone(net, s2, a).(weights := s2.weights)
    ensures Skeleton(net, s3) && Reverted(s1, s3, d) && Head(s2, a) !in s3.blocks
  {
    HeadFacts(net, s2, a);
    UndoneKeepsSkeleton(net, s2, a);
    UndoneSupply(net, s2, a);
    UndoneOrphans(net, s2, a);
    WeightsApart(net, Undone(net, s2, a), s2.weights);
    assert NoNewOrphans(s2, s3) <==> NoNewOrphans(s2, Undone(net, s2, a)) by {
      forall r ensures Orphaned(s3, r) <==> Orphaned(Undone(net, s2, a), r) {}
    }
    assert Reverted(s2, s3, d);
    RevertedTwice(net, s1, s2, s3, d, d);
  }

  lemma RevertedApart(s0: Store, s1: Store, s': Store, d: set<Hash>)
    requires s1 == s0.(weights := s1.weights) && Supply(s1) == Supply(s0) && Reverted(s1, s', d)
    ensures Reverted(s0, s', d)
  {
    forall r ensures Orphaned(s0, r) <==> Orphaned(s1, r) {}
    forall h ensures Confirmed(s0, h) <==> Confirmed(s1, h) {}
  }

  /** The head and what it sits on are untouched, so the shift of the weights is still the right one. */
  lemma SameShift(net: Network, s0: Store, s1: Store, s2: Store, a: Account, d: set<Hash>)
    requires Skeleton(net, s2) && a in s0.accounts && Head(s0, a) in s0.blocks
    requires s1.blocks == s0.blocks && Reverted(s1, s2, d)
    requires a in s2.accounts && s2.accounts[a] == s0.accounts[a] && Head(s2, a) in s2.blocks
    ensures forall r :: UndoShift(s2, a, r) == UndoShift(s0, a, r)
  {
    assert EntryOk(net, s2, Head(s2, a));
  }

  /** From the store on entry to the visitor, over the rollbacks in between, to the store it leaves. */
  lemma UndoneIsReverted(net: Network, s0: Store, s2: Store, s3: Store, a: Account, d: set<Hash>)
    requires Skeleton(net, s0) && Skeleton(net, s2)
    requires a in s0.accounts && Head(s0, a) in s0.blocks && Head(s0, a) in d
    requires Reverted(s0.(weights := ShiftedWeights(s0, a)), s2, d)
    requires SameDrift(s0.(weights := ShiftedWeights(s0, a)), s2)
    requires Removable(s2, a) && s2.accounts[a] == s0.accounts[a] && Head(s2, a) in s2.blocks
    requires s3 == Undone(net, s2, a).(weights := s2.weights)
    ensures Skeleton(net, s3) && Reverted(s0, s3, d) && SameDrift(s0, s3)
    ensures Head(s0, a) !in s3.blocks
  {
    var s1 := s0.(weights := ShiftedWeights(s0, a));
    WeightsApart(net, s0, ShiftedWeights(s0, a));
    EndIsReverted(net, s1, s2, s3, a, d);
    RevertedApart(s0, s1, s3, d);
    SameShift(net, s0, s1, s2, a, d);
    NoDriftAcross(net, s0, s2, a);
  }
}

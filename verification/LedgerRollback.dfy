/** Which blocks have to go when one is rolled back, and what removing them leaves as it was. */
module LedgerRollback {
  import opened Common
  import opened LedgerModel
  import opened LedgerInvariant
  import opened LedgerProcess
  import opened LedgerUndo
  import opened MapSums

  // -------------------------------------------------------------- dependence

  /** Block `y` is on top of block `x`, or receives what `x` sent. */
  predicate DependsOn(s: Store, y: Hash, x: Hash) {
    && y in s.blocks && x != 0
    && (s.blocks[y].block.previous == x || ReceivesFrom(s, y, x))
  }

  /** A set of blocks that holds whatever depends on its members. */
  ghost predicate UpClosed(s: Store, d: set<Hash>) {
    forall x, y {:trigger DependsOn(s, y, x)} :: x in d && DependsOn(s, y, x) ==> y in d
  }

  ghost predicate Separates(s: Store, h: Hash, x: Hash, d: set<Hash>) {
    h in d && UpClosed(s, d) && x !in d
  }

  /** The blocks that depend on `h`, directly or not: those in every closed set around `h`. */
  ghost function Dependents(s: Store, h: Hash): set<Hash> {
    set x | x in s.blocks && !exists d :: Separates(s, h, x, d)
  }

  lemma DependentsClosed(s: Store, h: Hash)
    requires h in s.blocks
    ensures h in Dependents(s, h) && UpClosed(s, Dependents(s, h))
  {
    forall x, y | x in Dependents(s, h) && DependsOn(s, y, x)
      ensures y in Dependents(s, h)
    {
      forall d
        ensures !Separates(s, h, y, d)
      {
        assert !Separates(s, h, x, d);
      }
    }
  }

  /** Higher blocks of the same account are later, and in every closed set around the lower one. */
  lemma {:induction false} Above(net: Network, s: Store, d: set<Hash>, h: Hash, k: Hash)
    requires Skeleton(net, s) && UpClosed(s, d) && h in d && h in s.blocks && k in s.blocks
    requires s.blocks[h].block.account == s.blocks[k].block.account && s.blocks[h].height <= s.blocks[k].height
    ensures k in d && s.blocks[h].serial <= s.blocks[k].serial
    decreases s.blocks[k].height
  {
    assert EntryOk(net, s, h) && EntryOk(net, s, k);
    if s.blocks[h].height == s.blocks[k].height {
      assert SameSpot(s, h, k);
    } else {
      Above(net, s, d, h, s.blocks[k].block.previous);
      assert DependsOn(s, k, s.blocks[k].block.previous);
    }
  }

  /** The members of a closed set accepted after a given moment. */
  ghost function Later(s: Store, d: set<Hash>, serial: nat): set<Hash> {
    set x | x in d && x in s.blocks && s.blocks[x].serial > serial
  }

  lemma LaterClosed(net: Network, s: Store, d: set<Hash>, serial: nat)
    requires Skeleton(net, s) && UpClosed(s, d)
    ensures UpClosed(s, Later(s, d, serial))
  {
    forall x, y | x in Later(s, d, serial) && DependsOn(s, y, x)
      ensures y in Later(s, d, serial)
    {
      assert EntryOk(net, s, y);
      assert IsReceive(s, y) ==> LooseOk(s, y);
    }
  }

  // ---------------------------------------------------------- partial rollback

  /**
  `s'` is `s` with some blocks of `d` rolled back, none of them cemented.  The supply
  never shrinks, and grows exactly if a receive is left without its send.
  */
  ghost predicate Reverted(s: Store, s': Store, d: set<Hash>) {
    && (forall h :: h in s'.blocks ==> h in s.blocks && s'.blocks[h] == s.blocks[h])
    && (forall h {:trigger h in s'.blocks} :: h in s.blocks && h !in s'.blocks ==> h in d && !Confirmed(s, h))
    && (forall a :: a in s'.heights ==> a in s.heights && s'.heights[a] == s.heights[a])
    && s'.clock == s.clock
    && Supply(s') >= Supply(s)
    && (Supply(s') == Supply(s) <==> NoNewOrphans(s, s'))
  }

  /** Blocks that stay keep their confirmation. */
  lemma StaysConfirmed(net: Network, s: Store, s': Store, d: set<Hash>, h: Hash)
    requires Skeleton(net, s') && Reverted(s, s', d) && h in s'.blocks
    ensures Confirmed(s', h) <==> Confirmed(s, h)
  {
    assert EntryOk(net, s', h);
  }

  /** An orphan stays one: it is cemented, and no send comes back. */
  lemma OrphansStay(net: Network, s: Store, s': Store, d: set<Hash>, r: Hash)
    requires Skeleton(net, s) && Reverted(s, s', d) && Orphaned(s, r)
    ensures Orphaned(s', r)
  {
    assert LooseOk(s, r);
  }

  lemma OrphansAddUp(net: Network, s0: Store, s1: Store, s2: Store, d0: set<Hash>, d1: set<Hash>)
    requires Skeleton(net, s0) && Skeleton(net, s1) && Reverted(s0, s1, d0) && Reverted(s1, s2, d1)
    ensures NoNewOrphans(s0, s2) <==> NoNewOrphans(s0, s1) && NoNewOrphans(s1, s2)
  {
    forall r ensures Orphaned(s0, r) ==> Orphaned(s1, r) { if Orphaned(s0, r) { OrphansStay(net, s0, s1, d0, r); } }
    forall r ensures Orphaned(s1, r) ==> Orphaned(s2, r) { if Orphaned(s1, r) { OrphansStay(net, s1, s2, d1, r); } }
  }

  lemma RevertedTwice(net: Network, s0: Store, s1: Store, s2: Store, d1: set<Hash>, d: set<Hash>)
    requires Skeleton(net, s0) && Skeleton(net, s1) && Reverted(s0, s1, d) && Reverted(s1, s2, d1) && d1 <= d
    ensures Reverted(s0, s2, d)
  {
    OrphansAddUp(net, s0, s1, s2, d, d1);
    forall h | h in s0.blocks && h !in s2.blocks
      ensures h in d && !Confirmed(s0, h)
    {
      if h in s1.blocks { StaysConfirmed(net, s0, s1, d, h); }
    }
  }

  lemma StillClosed(s: Store, s': Store, d: set<Hash>, e: set<Hash>)
    requires Reverted(s, s', e) && UpClosed(s, d)
    ensures UpClosed(s', d)
  {
    forall x, y | x in d && DependsOn(s', y, x)
      ensures y in d
    {
      assert DependsOn(s, y, x);
    }
  }

  /** An account whose head block survives has not changed. */
  lemma SameTop(net: Network, s: Store, s': Store, a: Account, d: set<Hash>)
    requires Skeleton(net, s) && Skeleton(net, s') && Reverted(s, s', d)
    requires a in s.accounts && Head(s, a) in s'.blocks
    ensures a in s'.accounts && s'.accounts[a] == s.accounts[a]
  {
    assert HeadOk(s, a);
    assert EntryOk(net, s', Head(s, a));
    assert HeadOk(s', a);
    assert EntryOk(net, s, s'.accounts[a].head);
    assert SameSpot(s, s'.accounts[a].head, s.accounts[a].head);
    assert SameSpot(s, s'.accounts[a].openBlock, s.accounts[a].openBlock);
  }

  /** The weights have no part in the skeleton. */
  lemma WeightsApart(net: Network, s: Store, weights: map<Account, Amount>)
    ensures Skeleton(net, s) ==> Skeleton(net, s.(weights := weights))
    ensures Supply(s.(weights := weights)) == Supply(s)
    ensures forall r :: Delegated(s.(weights := weights), r) == Delegated(s, r)
  {
    var s' := s.(weights := weights);
    assert Balances(s') == Balances(s) && Amounts(s') == Amounts(s);
    forall r
      ensures Delegated(s', r) == Delegated(s, r)
    {
      assert Delegations(s', r) == Delegations(s, r);
    }
    if Skeleton(net, s) {
      SkeletonApart(net, s, s');
    }
  }

  lemma SkeletonApart(net: Network, s: Store, s': Store)
    requires Skeleton(net, s) && s' == s.(weights := s'.weights)
    ensures Skeleton(net, s')
  {
    forall h | h in s'.blocks ensures EntryOk(net, s', h) { assert EntryOk(net, s, h); }
    forall a | a in s'.accounts ensures HeadOk(s', a) { assert HeadOk(s, a); }
    assert NoForks(s') by {
      forall h, k | h in s'.blocks && k in s'.blocks && SameSpot(s', h, k) ensures h == k { assert SameSpot(s, h, k); }
    }
    TransfersApart(net, s, s');
  }

  lemma TransfersApart(net: Network, s: Store, s': Store)
    requires Skeleton(net, s) && s' == s.(weights := s'.weights)
    ensures Pendings(s') && LooseReceives(s') && ReceivedOnce(s') && Sends(s')
  {
    forall k | k in s'.pending ensures PendingOk(s', k) { assert PendingOk(s, k); }
    forall h | IsReceive(s', h) ensures LooseOk(s', h) { assert LooseOk(s, h); }
    forall h, k | SameSource(s', h, k) ensures h == k { assert SameSource(s, h, k); }
    forall h | IsSend(s', h)
      ensures SendOk(s', h)
    {
      assert SendOk(s, h);
      if r :| ReceivesFrom(s, r, h) {
        assert ReceivesFrom(s', r, h);
      }
    }
  }

  /**
  A send that is no longer pending was received by a later block that is still there:
  the head of that chain is the next block to roll back.
  */
  lemma ReceiverToRollBack(net: Network, s: Store, top: Hash, d: set<Hash>)
    requires Skeleton(net, s) && UpClosed(s, d) && IsSend(s, top) && top in d
    requires Key(s.blocks[top].block.link, top) !in s.pending
    ensures var next := s.blocks[top].block.link;
            && next in s.accounts && Head(s, next) in s.blocks
            && s.blocks[Head(s, next)].serial < s.clock
            && Head(s, next) in Later(s, d, s.blocks[top].serial)
            && UpClosed(s, Later(s, d, s.blocks[top].serial))
  {
    assert SendOk(s, top);
    assert EntryOk(net, s, top);
    var r :| ReceivesFrom(s, r, top);
    assert LooseOk(s, r) && EntryOk(net, s, r);
    assert DependsOn(s, r, top);
    var later := Later(s, d, s.blocks[top].serial);
    LaterClosed(net, s, d, s.blocks[top].serial);
    var next := s.blocks[top].block.link;
    HeadFacts(net, s, next);
    Above(net, s, later, r, Head(s, next));
  }

  /** If that head is cemented, so is whoever received the send. */
  lemma ReceiverIsCemented(net: Network, s: Store, top: Hash)
    requires Skeleton(net, s) && IsSend(s, top)
    requires var next := s.blocks[top].block.link; next in s.accounts && Confirmed(s, Head(s, next))
    ensures forall r :: ReceivesFrom(s, r, top) ==> Confirmed(s, r)
  {
    var next := s.blocks[top].block.link;
    HeadFacts(net, s, next);
    forall r | ReceivesFrom(s, r, top)
      ensures Confirmed(s, r)
    {
      assert LooseOk(s, r) && EntryOk(net, s, r);
    }
  }

  // ------------------------------------------------------------- a whole rollback

  /** Nothing that depends on `h` is cemented. */
  ghost predicate Free(s: Store, h: Hash) {
    forall x :: x in Dependents(s, h) ==> !Confirmed(s, x)
  }

  /** What `rollback` of `h` leaves: everything as it was, or a skeleton without `h`. */
  ghost predicate RolledBack(net: Network, s: Store, h: Hash, s': Store) {
    if Confirmed(s, h) then s' == s
    else h !in s'.blocks && Skeleton(net, s') && Reverted(s, s', Dependents(s, h)) && SameDrift(s, s')
  }

  /** If nothing is orphaned, all dependents are gone. */
  lemma DependentsAreGone(net: Network, s: Store, h: Hash, s': Store)
    requires Skeleton(net, s') && Reverted(s, s', Dependents(s, h)) && NoNewOrphans(s, s')
    requires h in s.blocks && h !in s'.blocks
    ensures s'.blocks.Keys == s.blocks.Keys - Dependents(s, h)
  {
    var gone := s.blocks.Keys - s'.blocks.Keys;
    forall x, y | x in gone && DependsOn(s, y, x)
      ensures y in gone
    {
      assert y in s'.blocks ==> EntryOk(net, s', y);
      assert Orphaned(s', y) ==> Orphaned(s, y);
    }
    forall x | x in Dependents(s, h)
      ensures x in gone
    {
      assert !Separates(s, h, x, gone);
    }
  }

  /** If no dependent is cemented, nothing is orphaned: an orphan is cemented. */
  lemma FreeLeavesNoOrphans(net: Network, s: Store, h: Hash, s': Store)
    requires Skeleton(net, s') && Reverted(s, s', Dependents(s, h)) && Free(s, h) && h in s.blocks
    ensures NoNewOrphans(s, s')
  {
    DependentsClosed(s, h);
    forall r | Orphaned(s', r)
      ensures Orphaned(s, r)
    {
      assert LooseOk(s', r) && EntryOk(net, s', r);
      StaysConfirmed(net, s, s', Dependents(s, h), r);
      assert !Orphaned(s, r) ==> DependsOn(s, r, s.blocks[r].block.link);
    }
  }

  /**
  Rolling back an uncemented block conserves the supply, and keeps a ledger in shape
  in shape, if and only if nothing that depends on the block is cemented; it then
  removes exactly the dependents.
  */
  lemma RollbackIsRightIff(net: Network, s: Store, h: Hash, s': Store)
    requires Skeleton(net, s) && h in s.blocks && !Confirmed(s, h) && RolledBack(net, s, h, s')
    ensures Supply(s') == Supply(s) <==> Free(s, h)
    ensures Shape(net, s) ==> (Shape(net, s') <==> Free(s, h))
    ensures s'.blocks.Keys == s.blocks.Keys - Dependents(s, h) <==> Free(s, h)
  {
    if NoNewOrphans(s, s') {
      DependentsAreGone(net, s, h, s');
    }
    if Free(s, h) {
      FreeLeavesNoOrphans(net, s, h, s');
    }
    ShapeHasNoOrphans(net, s);
    ShapeHasNoOrphans(net, s');
  }

  /** If receives are cemented only after their sends, an uncemented block has no cemented dependents. */
  lemma ConfirmedClosedIsFree(net: Network, s: Store, h: Hash)
    requires Skeleton(net, s) && ConfirmedClosed(s) && h in s.blocks && !Confirmed(s, h)
    ensures Free(s, h)
  {
    var loose := set x | x in s.blocks && !Confirmed(s, x);
    forall x, y | x in loose && DependsOn(s, y, x)
      ensures y in loose
    {
      assert EntryOk(net, s, y);
      if s.blocks[y].block.previous != x {
        assert !ConfirmedReceive(s, y);
      }
    }
    forall x | x in Dependents(s, h)
      ensures !Confirmed(s, x)
    {
      assert !Separates(s, h, x, loose);
    }
  }

  /** So on a sound ledger every rollback is right. */
  lemma RollbackKeepsSound(net: Network, s: Store, h: Hash, s': Store)
    requires Sound(net, s) && h in s.blocks && RolledBack(net, s, h, s')
    ensures Sound(net, s')
    ensures !Confirmed(s, h) ==> s'.blocks.Keys == s.blocks.Keys - Dependents(s, h)
  {
    if !Confirmed(s, h) {
      ConfirmedClosedIsFree(net, s, h);
      RollbackIsRightIff(net, s, h, s');
      ExactIsNoDrift(s);
      ExactIsNoDrift(s');
      forall r | ConfirmedReceive(s', r)
        ensures Confirmed(s', s'.blocks[r].block.link)
      {
        StaysConfirmed(net, s, s', Dependents(s, h), r);
        assert ConfirmedReceive(s, r);
        StaysConfirmed(net, s, s', Dependents(s, h), s.blocks[r].block.link);
      }
    }
  }

  // ------------------------------------------------------------------ weights

  /** By how much undoing the head of `a` changes what is delegated to `r`. */
  function UndoShift(s: Store, a: Account, r: Account): int
    requires a in s.accounts && s.accounts[a].head in s.blocks
  {
    var b := s.blocks[s.accounts[a].head].block;
    (if b.representative == r then 0 - b.balance else 0)
    + (if b.previous != 0 && RepresentativeAt(s, b.previous) == r then BalanceAt(s, b.previous) else 0)
  }

  /** The weights as the visitor leaves them before it looks at the pending table. */
  function ShiftedWeights(s: Store, a: Account): map<Account, Amount>
    requires a in s.accounts && s.accounts[a].head in s.blocks
  {
    UndoneWeights(s, s.blocks[s.accounts[a].head].block)
  }

  lemma ShiftedWeightsMod(s: Store, a: Account, r: Account, d: int)
    requires a in s.accounts && s.accounts[a].head in s.blocks
    ensures (WeightIn(ShiftedWeights(s, a), r) - (d + UndoShift(s, a, r))) % TWO_128 == (WeightOf(s, r) - d) % TWO_128
  {
    var b := s.blocks[s.accounts[a].head].block;
    AddWeightMod(s.weights, b.representative, 0 - b.balance, r, d);
    if b.previous != 0 {
      AddWeightMod(AddWeight(s.weights, b.representative, 0 - b.balance), RepresentativeAt(s, b.previous),
                   BalanceAt(s, b.previous), r, d + if b.representative == r then 0 - b.balance else 0);
    }
  }

  lemma UndoneDelegated(net: Network, s: Store, a: Account, r: Account)
    requires Skeleton(net, s) && a in s.accounts && s.accounts[a].head in s.blocks
    ensures Delegated(Undone(net, s, a), r) == Delegated(s, r) + UndoShift(s, a, r)
  {
    HeadFacts(net, s, a);
    if s.blocks[s.accounts[a].head].block.previous == 0 {
      DelegatedDrop(s, Undone(net, s, a), a, r);
    } else {
      DelegatedUpdate(s, Undone(net, s, a), a, r);
    }
  }

  lemma NoDriftAt(s0: Store, s1: Store, s2: Store, s3: Store, a: Account, r: Account)
    requires a in s0.accounts && s0.accounts[a].head in s0.blocks
    requires s1.weights == ShiftedWeights(s0, a) && Delegated(s1, r) == Delegated(s0, r)
    requires Drift(s1, r) == Drift(s2, r)
    requires s3.weights == s2.weights && Delegated(s3, r) == Delegated(s2, r) + UndoShift(s0, a, r)
    ensures Drift(s3, r) == Drift(s0, r)
  {
    var w0, w1, w2 := WeightOf(s0, r) as int, WeightOf(s1, r) as int, WeightOf(s2, r) as int;
    var d0, d2, shift := Delegated(s0, r), Delegated(s2, r), UndoShift(s0, a, r);
    ShiftedWeightsMod(s0, a, r, d0);
    assert (w1 - (d0 + shift)) % TWO_128 == (w0 - d0) % TWO_128;
    DriftArithmetic(w0, d0, w1, w2, d2, shift);
  }

  lemma DriftArithmetic(w0: int, d0: int, w1: int, w2: int, d2: int, shift: int)
    requires (w1 - (d0 + shift)) % TWO_128 == (w0 - d0) % TWO_128
    requires (w1 - d0) % TWO_128 == (w2 - d2) % TWO_128
    ensures (w2 - (d2 + shift)) % TWO_128 == (w0 - d0) % TWO_128
  {
  }

  /**
  The visitor adjusts the weights first, rolls back other blocks in between, and
  changes the account last; in the end no weight has drifted.
  */
  lemma NoDriftAcross(net: Network, s0: Store, s2: Store, a: Account)
    requires Skeleton(net, s2)
    requires a in s0.accounts && s0.accounts[a].head in s0.blocks
    requires a in s2.accounts && s2.accounts[a].head in s2.blocks
    requires forall r :: UndoShift(s2, a, r) == UndoShift(s0, a, r)
    requires SameDrift(s0.(weights := ShiftedWeights(s0, a)), s2)
    ensures SameDrift(s0, Undone(net, s2, a).(weights := s2.weights))
  {
    var s1 := s0.(weights := ShiftedWeights(s0, a));
    var s3 := Undone(net, s2, a).(weights := s2.weights);
    WeightsApart(net, s0, s1.weights);
    WeightsApart(net, Undone(net, s2, a), s2.weights);
    forall r
      ensures Drift(s3, r) == Drift(s0, r)
    {
      assert Drift(s2, r) == Drift(s1, r);
      UndoneDelegated(net, s2, a, r);
      NoDriftAt(s0, s1, s2, s3, a, r);
    }
  }
}

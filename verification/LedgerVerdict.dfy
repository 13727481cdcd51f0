/** What the verdict on a block means: exactly which blocks are accepted, and exactly when each refusal is given. */
module LedgerVerdict {
  import opened LedgerModel
  import opened LedgerInvariant

  // ------------------------------------------------------------ what a block is

  /** The balance of the block below, 0 if that is not stored. */
  predicate KeepsBalance(s: Store, b: Block) {
    if b.previous in s.blocks then b.balance == s.blocks[b.previous].block.balance else b.balance == 0
  }

  /** An epoch link and no change of balance; with a change the link is just a destination. */
  predicate Epochal(net: Network, s: Store, b: Block) {
    b.link in net.epochs && KeepsBalance(s, b)
  }

  predicate IsOpen(s: Store, b: Block) {
    b.account in s.accounts
  }

  /** Its predecessor has not arrived. */
  predicate Gapped(s: Store, b: Block) {
    b.previous != 0 && b.previous !in s.blocks
  }

  /** Signed by the key that may sign such a block, here or already checked outside. */
  predicate Authorised(net: Network, s: Store, b: Block, v: Verification) {
    if Epochal(net, s, b) then v == ValidEpoch || b.epochSigned else v == Valid || b.signed
  }

  /** On top of its account's chain; an epoch block that opens an account may sit on any stored block. */
  predicate InPlace(net: Network, s: Store, b: Block) {
    if IsOpen(s, b) then b.previous == s.accounts[b.account].head
    else b.previous == 0 || (Epochal(net, s, b) && b.previous in s.blocks)
  }

  predicate Spends(s: Store, b: Block) {
    IsOpen(s, b) && b.balance < Balance(s, b.account)
  }

  predicate Receivable(s: Store, b: Block) {
    Key(b.account, b.link) in s.pending
  }

  predicate Collects(net: Network, s: Store, b: Block) {
    && b.link != 0 && SourceExists(net, s, b.link) && Receivable(s, b)
    && b.balance == Balance(s, b.account) + s.pending[Key(b.account, b.link)].amount
  }

  /** Only the representative changes. */
  predicate Redelegates(s: Store, b: Block) {
    b.link == 0 && IsOpen(s, b) && b.balance == Balance(s, b.account)
  }

  /** An epoch block leaves the representative alone; an account not open yet has none. */
  predicate KeepsRepresentative(s: Store, b: Block) {
    if IsOpen(s, b) then b.representative == s.accounts[b.account].representative else b.representative == 0
  }

  /** The next epoch for an open account, or any epoch for one that has something pending. */
  predicate InTurn(net: Network, s: Store, b: Block)
    requires b.link in net.epochs
  {
    if IsOpen(s, b) then net.epochs[b.link] == s.accounts[b.account].epoch + 1
    else net.epochs[b.link] > 0 && exists k :: k in s.pending && k.account == b.account
  }

  predicate Upgrades(net: Network, s: Store, b: Block)
    requires b.link in net.epochs
  {
    KeepsRepresentative(s, b) && InTurn(net, s, b) && b.balance == Balance(s, b.account)
  }

  /** The balance follows from what the block does. */
  predicate Balanced(net: Network, s: Store, b: Block) {
    if Epochal(net, s, b) then Upgrades(net, s, b)
    else Spends(s, b) || Collects(net, s, b) || Redelegates(s, b)
  }

  // ------------------------------------------------------------ the work it needs

  /** The epoch the account is in after the block. */
  function EpochAfter(net: Network, s: Store, b: Block): nat {
    var key := Key(b.account, b.link);
    if Epochal(net, s, b) then net.epochs[b.link]
    else if !Spends(s, b) && b.link != 0 && key in s.pending && s.pending[key].epoch > Epoch(s, b.account) then
      s.pending[key].epoch
    else Epoch(s, b.account)
  }

  /** What brings money in or upgrades an account: cheaper than a send or a change once in epoch 2. */
  predicate Cheap(net: Network, s: Store, b: Block) {
    Epochal(net, s, b) || (!Spends(s, b) && (b.link != 0 || !IsOpen(s, b)))
  }

  function Demand(net: Network, s: Store, b: Block): nat {
    if EpochAfter(net, s, b) != EPOCH_2 then net.epoch1Work
    else if Cheap(net, s, b) then net.epoch2ReceiveWork
    else net.epoch2Work
  }

  predicate Works(net: Network, s: Store, b: Block) {
    b.difficulty >= Demand(net, s, b)
  }

  /** The work asked for is that of the block's kind and epoch. */
  lemma WorkByKind(net: Network, s: Store, b: Block)
    ensures CheckWork(net, s, b) == Progress <==> Works(net, s, b)
  {
  }

  // --------------------------------------------------------------- acceptance

  predicate Acceptable(net: Network, s: Store, b: Block, v: Verification) {
    && b.hash !in s.blocks && b.account != BURN_ACCOUNT
    && Authorised(net, s, b, v) && InPlace(net, s, b) && Balanced(net, s, b) && Works(net, s, b)
  }

  /** The head of an open account is a stored block and not the zero hash. */
  lemma OpenHead(net: Network, s: Store, a: Account)
    requires Shape(net, s) && a in s.accounts
    ensures s.accounts[a].head != 0 && s.accounts[a].head in s.blocks
    ensures BalanceAt(s, s.accounts[a].head) == Balance(s, a)
  {
    assert HeadOk(s, a) && EntryOk(net, s, s.accounts[a].head);
  }

  lemma ZeroIsNoBlock(net: Network, s: Store)
    requires Shape(net, s)
    ensures 0 !in s.blocks
  {
    assert 0 in s.blocks ==> EntryOk(net, s, 0);
  }

  /** The order in which the checks are made does not matter for what passes them all. */
  lemma AcceptedIff(net: Network, s: Store, b: Block, v: Verification)
    requires NetworkOk(net) && Shape(net, s)
    ensures Check(net, s, b, v) == Progress <==> Acceptable(net, s, b, v)
  {
    VerdictIff(net, s, b, v, Progress);
    if IsOpen(s, b) {
      OpenHead(net, s, b.account);
    }
  }

  // -------------------------------------------------------------- each verdict

  /** An epoch link on a predecessor that has not arrived: refused before anything else is looked at. */
  predicate EpochGap(net: Network, s: Store, b: Block) {
    b.link in net.epochs && Gapped(s, b)
  }

  /** New, signed and of a real account, so that its place in the chain is what counts. */
  predicate Entered(net: Network, s: Store, b: Block, v: Verification) {
    !EpochGap(net, s, b) && b.hash !in s.blocks && Authorised(net, s, b, v) && b.account != BURN_ACCOUNT
  }

  /** When an epoch block gets a verdict that depends on its place. */
  predicate EpochGround(net: Network, s: Store, b: Block, code: Code)
    requires Epochal(net, s, b)
  {
    match code
    case Fork => !InPlace(net, s, b)
    case RepresentativeMismatch => InPlace(net, s, b) && !KeepsRepresentative(s, b)
    case BlockPosition => InPlace(net, s, b) && KeepsRepresentative(s, b) && !InTurn(net, s, b)
    case BalanceMismatch =>
      && InPlace(net, s, b) && KeepsRepresentative(s, b) && InTurn(net, s, b)
      && b.balance != Balance(s, b.account)
    case InsufficientWork => InPlace(net, s, b) && Upgrades(net, s, b) && !Works(net, s, b)
    case Progress => InPlace(net, s, b) && Upgrades(net, s, b) && Works(net, s, b)
    case _ => false
  }

  /** When any other block does. */
  predicate StateGround(net: Network, s: Store, b: Block, code: Code) {
    var credit := InPlace(net, s, b) && !Spends(s, b);
    match code
    case GapPrevious => if IsOpen(s, b) then Gapped(s, b) else b.previous != 0
    case Fork => IsOpen(s, b) && !Gapped(s, b) && !InPlace(net, s, b)
    case GapSource => credit && if b.link == 0 then !IsOpen(s, b) else !SourceExists(net, s, b.link)
    case Unreceivable => credit && b.link != 0 && SourceExists(net, s, b.link) && !Receivable(s, b)
    case BalanceMismatch =>
      && credit && !Balanced(net, s, b)
      && if b.link == 0 then IsOpen(s, b) else SourceExists(net, s, b.link) && Receivable(s, b)
    case InsufficientWork => InPlace(net, s, b) && Balanced(net, s, b) && !Works(net, s, b)
    case Progress => InPlace(net, s, b) && Balanced(net, s, b) && Works(net, s, b)
    case _ => false
  }

  /** When a block gets a verdict. */
  predicate Ground(net: Network, s: Store, b: Block, v: Verification, code: Code) {
    match code
    case Old => !EpochGap(net, s, b) && b.hash in s.blocks
    case BadSignature =>
      if EpochGap(net, s, b) then v == Unknown && !b.signed && !b.epochSigned
      else b.hash !in s.blocks && !Authorised(net, s, b, v)
    case OpenedBurnAccount =>
      !EpochGap(net, s, b) && b.hash !in s.blocks && Authorised(net, s, b, v) && b.account == BURN_ACCOUNT
    case _ =>
      if EpochGap(net, s, b) then code == GapPrevious && (v != Unknown || b.signed || b.epochSigned)
      else Entered(net, s, b, v) && if Epochal(net, s, b) then EpochGround(net, s, b, code) else StateGround(net, s, b, code)
  }

  /** The checks on a block in place that does not spend. */
  lemma CreditVerdict(net: Network, s: Store, b: Block, code: Code)
    requires !Epochal(net, s, b) && InPlace(net, s, b) && !Gapped(s, b) && !Spends(s, b) && (IsOpen(s, b) || b.link != 0)
    ensures CheckCredit(net, s, b, b.balance - Balance(s, b.account)) == code <==> StateGround(net, s, b, code)
  {
    WorkByKind(net, s, b);
  }

  lemma OpenVerdict(net: Network, s: Store, b: Block, v: Verification, code: Code)
    requires Shape(net, s) && !Epochal(net, s, b) && Entered(net, s, b, v) && IsOpen(s, b)
    ensures CheckState(net, s, b, v) == code <==> StateGround(net, s, b, code)
  {
    WorkByKind(net, s, b);
    ZeroIsNoBlock(net, s);
    OpenHead(net, s, b.account);
    if InPlace(net, s, b) && !Spends(s, b) {
      CreditVerdict(net, s, b, code);
      assert CheckState(net, s, b, v) == CheckCredit(net, s, b, b.balance - Balance(s, b.account));
    }
  }

  lemma OpeningVerdict(net: Network, s: Store, b: Block, v: Verification, code: Code)
    requires !Epochal(net, s, b) && Entered(net, s, b, v) && !IsOpen(s, b)
    ensures CheckState(net, s, b, v) == code <==> StateGround(net, s, b, code)
  {
    if b.previous == 0 && b.link != 0 {
      CreditVerdict(net, s, b, code);
      assert CheckState(net, s, b, v) == CheckCredit(net, s, b, b.balance - Balance(s, b.account));
    }
  }

  lemma EpochVerdict(net: Network, s: Store, b: Block, v: Verification, code: Code)
    requires Shape(net, s) && Epochal(net, s, b) && Entered(net, s, b, v)
    ensures CheckEpoch(net, s, b, v) == code <==> EpochGround(net, s, b, code)
  {
    WorkByKind(net, s, b);
    if IsOpen(s, b) {
      OpenHead(net, s, b.account);
    }
  }

  /** What is refused before its place is looked at. */
  lemma EarlyVerdict(net: Network, s: Store, b: Block, v: Verification, code: Code)
    requires !Entered(net, s, b, v)
    ensures Check(net, s, b, v) == code <==> Ground(net, s, b, v, code)
  {
  }

  lemma VerdictByKind(net: Network, s: Store, b: Block, v: Verification)
    requires Entered(net, s, b, v)
    ensures Check(net, s, b, v) == if Epochal(net, s, b) then CheckEpoch(net, s, b, v) else CheckState(net, s, b, v)
  {
  }

  /** Each of the twelve verdicts is given if and only if its ground holds; so no two grounds hold at once, and one does. */
  lemma VerdictIff(net: Network, s: Store, b: Block, v: Verification, code: Code)
    requires NetworkOk(net) && Shape(net, s)
    ensures Check(net, s, b, v) == code <==> Ground(net, s, b, v, code)
  {
    if !Entered(net, s, b, v) {
      EarlyVerdict(net, s, b, v, code);
    } else {
      VerdictByKind(net, s, b, v);
      if Epochal(net, s, b) {
        EpochVerdict(net, s, b, v, code);
      } else if IsOpen(s, b) {
        OpenVerdict(net, s, b, v, code);
      } else {
        OpeningVerdict(net, s, b, v, code);
      }
    }
  }

  /** Out of order: a block whose predecessor has not arrived is asked for that, never called a fork. */
  lemma OutOfOrderIsAGap(net: Network, s: Store, b: Block, v: Verification)
    requires NetworkOk(net) && Shape(net, s) && Gapped(s, b)
    ensures Check(net, s, b, v) != Fork
    ensures b.hash !in s.blocks && b.account != BURN_ACCOUNT && b.signed ==> Check(net, s, b, v) == GapPrevious
  {
    VerdictIff(net, s, b, v, Fork);
    VerdictIff(net, s, b, v, GapPrevious);
  }

  /** Whatever arrives, the balance and the representative of an open account change only by a block its own key signed. */
  lemma OnlyTheOwnerActs(net: Network, s: Store, b: Block, v: Verification, a: Account)
    requires NetworkOk(net) && Shape(net, s) && a in s.accounts
    ensures var s' := Process(net, s, b, v).1;
            && a in s'.accounts
            && (s'.accounts[a].balance != s.accounts[a].balance || s'.accounts[a].representative != s.accounts[a].representative
                ==> b.account == a && (v == Valid || b.signed))
  {
    AcceptedIff(net, s, b, v);
  }
}

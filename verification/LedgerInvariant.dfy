/** What every reachable ledger satisfies. */
module LedgerInvariant {
  import opened Common
  import opened LedgerModel
  import opened MapSums

  // ------------------------------------------------------------- account chains

  /** A stored block sits on its predecessor, in the chain of its own account. */
  predicate EntryOk(net: Network, s: Store, h: Hash)
    requires h in s.blocks
  {
    var e := s.blocks[h];
    var b := e.block;
    && b.hash == h && RealHash(net, h)
    && b.account in s.accounts
    && 1 <= e.height <= s.accounts[b.account].blockCount
    && e.serial < s.clock
    && (b.previous == 0 <==> e.height == 1)
    && (b.previous != 0 ==>
          && b.previous in s.blocks
          && s.blocks[b.previous].block.account == b.account
          && s.blocks[b.previous].height + 1 == e.height
          && s.blocks[b.previous].serial < e.serial)
    && KindOk(net, s, h)
  }

  /** The stored details say what the block did to the balance. */
  predicate KindOk(net: Network, s: Store, h: Hash)
    requires h in s.blocks
  {
    var e := s.blocks[h];
    var b := e.block;
    var before := BalanceAt(s, b.previous);
    && (e.details.isSend ==> !e.details.isReceive && b.balance < before)
    && (e.details.isReceive ==> b.balance >= before && b.link != 0 && b.link !in net.epochs && h != net.genesis.hash)
    && (!e.details.isSend && !e.details.isReceive && h != net.genesis.hash ==>
          b.balance == before && (b.link == 0 || b.link in net.epochs))
    && (h == net.genesis.hash ==> b == net.genesis && e.details == Details(EPOCH_0, false, false, false))
  }

  ghost predicate Chains(net: Network, s: Store) {
    forall h {:trigger EntryOk(net, s, h)} :: h in s.blocks ==> EntryOk(net, s, h)
  }

  predicate SameSpot(s: Store, h: Hash, k: Hash)
    requires h in s.blocks && k in s.blocks
  {
    s.blocks[h].block.account == s.blocks[k].block.account && s.blocks[h].height == s.blocks[k].height
  }

  /** No account has two blocks at one height. */
  ghost predicate NoForks(s: Store) {
    forall h, k {:trigger SameSpot(s, h, k)} :: h in s.blocks && k in s.blocks && SameSpot(s, h, k) ==> h == k
  }

  /** The account table describes the top of each chain. */
  predicate HeadOk(s: Store, a: Account)
    requires a in s.accounts
  {
    var info := s.accounts[a];
    && info.head in s.blocks
    && var e := s.blocks[info.head];
    && e.block.account == a
    && e.height == info.blockCount
    && e.block.balance == info.balance
    && e.block.representative == info.representative
    && e.details.epoch == info.epoch
    && a in s.heights && s.heights[a] <= info.blockCount
    && info.openBlock in s.blocks
    && s.blocks[info.openBlock].block.account == a && s.blocks[info.openBlock].height == 1
  }

  ghost predicate Heads(net: Network, s: Store) {
    && s.heights.Keys == s.accounts.Keys
    && forall a {:trigger HeadOk(s, a)} :: a in s.accounts ==> HeadOk(s, a)
  }

  // ------------------------------------------------------------------- transfers

  predicate IsSend(s: Store, h: Hash) {
    h in s.blocks && s.blocks[h].details.isSend
  }

  predicate IsReceive(s: Store, h: Hash) {
    h in s.blocks && s.blocks[h].details.isReceive
  }

  /** The pending entry a send block leaves for its destination. */
  function PendingFor(s: Store, h: Hash): Pending
    requires h in s.blocks
  {
    var e := s.blocks[h];
    var before := BalanceAt(s, e.block.previous);
    Pending(e.block.account, if e.block.balance < before then before - e.block.balance else 0, e.details.epoch)
  }

  /** A pending entry is an unspent send to its account, with that send's amount and epoch. */
  predicate PendingOk(s: Store, k: Key)
    requires k in s.pending
  {
    && IsSend(s, k.hash)
    && s.blocks[k.hash].block.link == k.account
    && s.pending[k] == PendingFor(s, k.hash)
  }

  ghost predicate Pendings(s: Store) {
    forall k {:trigger PendingOk(s, k)} :: k in s.pending ==> PendingOk(s, k)
  }

  /** A receive takes exactly what an earlier send gave its account, and uses it up. */
  predicate ReceiveOk(s: Store, h: Hash)
    requires h in s.blocks
  {
    var e := s.blocks[h];
    var source := e.block.link;
    && IsSend(s, source)
    && s.blocks[source].block.link == e.block.account
    && s.blocks[source].serial < e.serial
    && e.block.balance - BalanceAt(s, e.block.previous) == PendingFor(s, source).amount
    && Key(e.block.account, source) !in s.pending
  }

  ghost predicate Receives(s: Store) {
    forall h {:trigger ReceiveOk(s, h)} :: IsReceive(s, h) ==> ReceiveOk(s, h)
  }

  /** A receive whose send is gone. */
  predicate Orphaned(s: Store, h: Hash) {
    IsReceive(s, h) && s.blocks[h].block.link !in s.blocks
  }

  predicate SameSource(s: Store, h: Hash, k: Hash) {
    IsReceive(s, h) && IsReceive(s, k) && s.blocks[h].block.link == s.blocks[k].block.link
  }

  /** No send is received twice. */
  ghost predicate ReceivedOnce(s: Store) {
    forall h, k {:trigger SameSource(s, h, k)} :: SameSource(s, h, k) ==> h == k
  }

  predicate ReceivesFrom(s: Store, r: Hash, h: Hash) {
    IsReceive(s, r) && s.blocks[r].block.link == h
  }

  /** Every send is still pending or has been received. */
  ghost predicate SendOk(s: Store, h: Hash)
    requires h in s.blocks
  {
    Key(s.blocks[h].block.link, h) in s.pending || exists r {:trigger ReceivesFrom(s, r, h)} :: ReceivesFrom(s, r, h)
  }

  ghost predicate Sends(s: Store) {
    forall h {:trigger SendOk(s, h)} :: IsSend(s, h) ==> SendOk(s, h)
  }

  // ------------------------------------------------------------------ cementing

  predicate Confirmed(s: Store, h: Hash) {
    && h in s.blocks && s.blocks[h].block.account in s.heights
    && s.blocks[h].height <= s.heights[s.blocks[h].block.account]
  }

  predicate ConfirmedReceive(s: Store, h: Hash) {
    IsReceive(s, h) && Confirmed(s, h)
  }

  /** What a confirmed receive took is confirmed too. */
  ghost predicate ConfirmedClosed(s: Store) {
    forall h {:trigger ConfirmedReceive(s, h)} :: ConfirmedReceive(s, h) ==> Confirmed(s, s.blocks[h].block.link)
  }

  /** A receive is in order, or cemented and its send gone. */
  predicate LooseOk(s: Store, h: Hash)
    requires h in s.blocks
  {
    if Orphaned(s, h) then Confirmed(s, h) else ReceiveOk(s, h)
  }

  ghost predicate LooseReceives(s: Store) {
    forall h {:trigger LooseOk(s, h)} :: IsReceive(s, h) ==> LooseOk(s, h)
  }

  /** The genesis block is there to stay. */
  predicate GenesisKept(net: Network, s: Store) {
    net.genesis.hash in s.blocks && Confirmed(s, net.genesis.hash)
  }

  /** What every rollback keeps, even one that removes a send under a cemented receive. */
  ghost predicate Skeleton(net: Network, s: Store) {
    && Chains(net, s) && NoForks(s) && Heads(net, s)
    && Pendings(s) && LooseReceives(s) && ReceivedOnce(s) && Sends(s)
    && GenesisKept(net, s)
  }

  /** The shape of the ledger: chains, transfers and confirmation heights. */
  ghost predicate Shape(net: Network, s: Store) {
    Skeleton(net, s) && Receives(s)
  }

  lemma ReceivesAreLoose(s: Store)
    requires Receives(s)
    ensures LooseReceives(s)
  {
    forall h | IsReceive(s, h) ensures LooseOk(s, h) { assert ReceiveOk(s, h); }
  }

  /** Which is the skeleton without orphans. */
  lemma ShapeHasNoOrphans(net: Network, s: Store)
    ensures Shape(net, s) <==> Skeleton(net, s) && forall h :: !Orphaned(s, h)
  {
    if Skeleton(net, s) && forall h :: !Orphaned(s, h) {
      forall h | IsReceive(s, h) ensures ReceiveOk(s, h) { assert LooseOk(s, h); }
    }
    if Shape(net, s) {
      forall h ensures !Orphaned(s, h) { assert IsReceive(s, h) ==> ReceiveOk(s, h); }
    }
  }

  // ---------------------------------------------------------------- the supply

  function Balances(s: Store): map<Account, int> {
    map a | a in s.accounts :: s.accounts[a].balance as int
  }

  function Amounts(s: Store): map<Key, int> {
    map k | k in s.pending :: s.pending[k].amount as int
  }

  /** Everything in accounts plus everything in flight. */
  ghost function Supply(s: Store): int {
    Sum(Balances(s)) + Sum(Amounts(s))
  }

  /** The balances delegated to a representative. */
  function Delegations(s: Store, r: Account): map<Account, int> {
    map a | a in s.accounts :: if s.accounts[a].representative == r then s.accounts[a].balance as int else 0
  }

  ghost function Delegated(s: Store, r: Account): int {
    Sum(Delegations(s, r))
  }

  /** The cached voting weights are the delegated balances. */
  ghost predicate WeightsExact(s: Store) {
    forall r :: WeightOf(s, r) == Delegated(s, r)
  }

  /** How far a cached weight is off, modulo 2^128. */
  ghost function Drift(s: Store, r: Account): int {
    (WeightOf(s, r) - Delegated(s, r)) % TWO_128
  }

  ghost predicate SameDrift(s: Store, s': Store) {
    forall r :: Drift(s', r) == Drift(s, r)
  }
}

/**
The block-lattice ledger of futurehead/secure/ledger.cpp, for universal ("state")
blocks: what a block must satisfy to be accepted, what accepting it does to the
store, and what rolling back an account's head block does.

A block's hash, its signatures and its proof of work are opaque here: the hash is
a field, and two booleans say whether the account key and the epoch key signed it.
Legacy blocks are not modelled; the genesis block stands in as the one entry that
no other block paid for.
*/
module LedgerModel {
  import opened Common

  type Hash = nat
  type Account = nat

  /** `uint128_t` */
  type Amount = x: nat | x < TWO_128

  const GENESIS_AMOUNT: Amount := TWO_128 - 1

  const BURN_ACCOUNT: Account := 0
  const EPOCH_0 := 2
  const EPOCH_2 := 4

  datatype Block = Block(
    hash: Hash, account: Account, previous: Hash, representative: Account, balance: Amount, link: nat,
    signed: bool, epochSigned: bool, difficulty: nat)

  datatype Details = Details(epoch: nat, isSend: bool, isReceive: bool, isEpoch: bool)

  /** A stored block with its sideband.  `serial` is history: the order of acceptance. */
  datatype Entry = Entry(block: Block, height: nat, details: Details, serial: nat)

  datatype Info = Info(head: Hash, representative: Account, openBlock: Hash, balance: Amount,
                       blockCount: nat, epoch: nat)

  datatype Pending = Pending(source: Account, amount: Amount, epoch: nat)

  /** A pending key: the destination account and the hash of the send block. */
  datatype Key = Key(account: Account, hash: Hash)

  datatype Store = Store(
    blocks: map<Hash, Entry>,
    accounts: map<Account, Info>,
    pending: map<Key, Pending>,
    heights: map<Account, nat>,
    weights: map<Account, Amount>,
    clock: nat)

  /** The network constants: the genesis block, the epoch links, the work thresholds. */
  datatype Network = Network(genesis: Block, epochs: map<nat, nat>,
                             epoch1Work: nat, epoch2Work: nat, epoch2ReceiveWork: nat)

  datatype Verification = Unknown | Invalid | Valid | ValidEpoch

  datatype Code =
    | Progress | BadSignature | Old | Fork | Unreceivable | GapPrevious | GapSource
    | OpenedBurnAccount | BalanceMismatch | RepresentativeMismatch | BlockPosition | InsufficientWork

  // ------------------------------------------------------------------ queries

  /** `ledger.balance`: the account balance as of a block, 0 for the zero hash. */
  function BalanceAt(s: Store, h: Hash): Amount {
    if h in s.blocks then s.blocks[h].block.balance else 0
  }

  /** `store.block_version` */
  function VersionAt(s: Store, h: Hash): nat {
    if h in s.blocks then s.blocks[h].details.epoch else EPOCH_0
  }

  function RepresentativeAt(s: Store, h: Hash): Account {
    if h in s.blocks then s.blocks[h].block.representative else 0
  }

  /** The balance of an account, 0 when it is not open. */
  function Balance(s: Store, a: Account): Amount {
    if a in s.accounts then s.accounts[a].balance else 0
  }

  /** What `account_get` yields: the zero record for an account that is not open. */
  function InfoOf(s: Store, a: Account): Info {
    if a in s.accounts then s.accounts[a] else Info(0, 0, 0, 0, 0, EPOCH_0)
  }

  function Epoch(s: Store, a: Account): nat {
    if a in s.accounts then s.accounts[a].epoch else EPOCH_0
  }

  function BlockCount(s: Store, a: Account): nat {
    if a in s.accounts then s.accounts[a].blockCount else 0
  }

  /** `representation_get` */
  function WeightIn(weights: map<Account, Amount>, r: Account): Amount {
    if r in weights then weights[r] else 0
  }

  function WeightOf(s: Store, r: Account): Amount {
    WeightIn(s.weights, r)
  }

  /** `representation_add`: addition modulo 2^128. */
  function AddWeight(weights: map<Account, Amount>, r: Account, delta: int): map<Account, Amount> {
    weights[r := (WeightIn(weights, r) + delta) % TWO_128]
  }

  /** `store.source_exists`: only state and send blocks are sources, and genesis is an open block. */
  predicate SourceExists(net: Network, s: Store, h: Hash) {
    h in s.blocks && h != net.genesis.hash
  }

  predicate PendingAny(s: Store, a: Account) {
    exists k :: k in s.pending && k.account == a
  }

  /** A block with an epoch link that leaves the balance alone. */
  predicate IsEpochBlock(net: Network, s: Store, b: Block) {
    b.link in net.epochs && b.balance == BalanceAt(s, b.previous)
  }

  /** `work_v1::threshold` */
  function Threshold(net: Network, d: Details): nat {
    if d.epoch == EPOCH_2 then (if d.isReceive || d.isEpoch then net.epoch2ReceiveWork else net.epoch2Work)
    else net.epoch1Work
  }

  /** The `block_details` a block is stored with. */
  function DetailsOf(net: Network, s: Store, b: Block): Details {
    if IsEpochBlock(net, s, b) then Details(net.epochs[b.link], false, false, true)
    else if b.account in s.accounts && b.balance < s.accounts[b.account].balance then
      Details(s.accounts[b.account].epoch, true, false, false)
    else
      var epoch := Epoch(s, b.account);
      var key := Key(b.account, b.link);
      Details(if b.link != 0 && key in s.pending && s.pending[key].epoch > epoch then s.pending[key].epoch else epoch,
              false, b.account !in s.accounts || b.link != 0, false)
  }

  // --------------------------------------------------------------- acceptance

  function CheckWork(net: Network, s: Store, b: Block): Code {
    if b.difficulty >= Threshold(net, DetailsOf(net, s, b)) then Progress else InsufficientWork
  }

  /** The checks on a block that does not spend. */
  function CheckCredit(net: Network, s: Store, b: Block, amount: nat): Code {
    if b.link != 0 then
      if !SourceExists(net, s, b.link) then GapSource
      else if Key(b.account, b.link) !in s.pending then Unreceivable
      else if amount != s.pending[Key(b.account, b.link)].amount then BalanceMismatch
      else CheckWork(net, s, b)
    else if amount != 0 then BalanceMismatch
    else CheckWork(net, s, b)
  }

  /** `state_block_impl` */
  function CheckState(net: Network, s: Store, b: Block, v: Verification): Code {
    if b.hash in s.blocks then Old
    else if v != Valid && !b.signed then BadSignature
    else if b.account == BURN_ACCOUNT then OpenedBurnAccount
    else if b.account in s.accounts then
      var info := s.accounts[b.account];
      if b.previous == 0 then Fork
      else if b.previous !in s.blocks then GapPrevious
      else if b.previous != info.head then Fork
      else if b.balance < info.balance then CheckWork(net, s, b)
      else CheckCredit(net, s, b, b.balance - info.balance)
    else if b.previous != 0 then GapPrevious
    else if b.link == 0 then GapSource
    else CheckCredit(net, s, b, b.balance)
  }

  /** `epoch_block_impl` */
  function CheckEpoch(net: Network, s: Store, b: Block, v: Verification): Code
    requires b.link in net.epochs
  {
    if b.hash in s.blocks then Old
    else if v != ValidEpoch && !b.epochSigned then BadSignature
    else if b.account == BURN_ACCOUNT then OpenedBurnAccount
    else if b.account in s.accounts then
      var info := s.accounts[b.account];
      if b.previous == 0 then Fork
      else if b.previous != info.head then Fork
      else if b.representative != info.representative then RepresentativeMismatch
      else if net.epochs[b.link] != info.epoch + 1 then BlockPosition
      else if b.balance != info.balance then BalanceMismatch
      else CheckWork(net, s, b)
    else if b.representative != 0 then RepresentativeMismatch
    else if !PendingAny(s, b.account) then BlockPosition
    else if net.epochs[b.link] == 0 then BlockPosition
    else if b.balance != 0 then BalanceMismatch
    else CheckWork(net, s, b)
  }

  /** The verdict of `ledger::process` on a state block. */
  function Check(net: Network, s: Store, b: Block, v: Verification): Code {
    if b.link in net.epochs && b.previous != 0 && b.previous !in s.blocks then
      if v == Unknown && !b.signed && !b.epochSigned then BadSignature else GapPrevious
    else if IsEpochBlock(net, s, b) then CheckEpoch(net, s, b, v)
    else CheckState(net, s, b, v)
  }

  // ------------------------------------------------------------------ effects

  /** The pending table after an accepted block: a send adds an entry, a receive uses one up. */
  function AppliedPending(pending: map<Key, Pending>, before: Amount, b: Block, d: Details): map<Key, Pending> {
    if d.isSend && b.balance <= before then
      pending[Key(b.link, b.hash) := Pending(b.account, before - b.balance, d.epoch)]
    else if d.isEpoch || b.link == 0 then pending
    else pending - {Key(b.account, b.link)}
  }

  /** The weights after an accepted block: the old balance leaves, the new one arrives. */
  function AppliedWeights(weights: map<Account, Amount>, info: Info, b: Block, d: Details): map<Account, Amount> {
    if d.isEpoch then weights
    else if info.head != 0 then
      AddWeight(AddWeight(weights, info.representative, 0 - info.balance), b.representative, b.balance)
    else AddWeight(weights, b.representative, b.balance)
  }

  /** The store after an accepted block. */
  function Applied(net: Network, s: Store, b: Block): Store {
    Stored(s, b, DetailsOf(net, s, b))
  }

  /** The store with a block put on top of its account's chain. */
  function Stored(s: Store, b: Block, d: Details): Store {
    var a := b.account;
    var isOpen := a in s.accounts;
    var height := BlockCount(s, a) + 1;
    Store(
      s.blocks[b.hash := Entry(b, height, d, s.clock)],
      s.accounts[a := Info(b.hash, b.representative, if isOpen then s.accounts[a].openBlock else b.hash,
                           b.balance, height, d.epoch)],
      AppliedPending(s.pending, Balance(s, a), b, d),
      if isOpen then s.heights else s.heights[a := 0],
      AppliedWeights(s.weights, InfoOf(s, a), b, d),
      s.clock + 1)
  }

  /** `process`: the verdict, and the store changed only on progress. */
  function Process(net: Network, s: Store, b: Block, v: Verification): (Code, Store) {
    var code := Check(net, s, b, v);
    (code, if code == Progress then Applied(net, s, b) else s)
  }

  /** The pending table once block `b` of account `a`, on top of balance `before`, is undone. */
  function UndonePending(net: Network, s: Store, a: Account, b: Block, before: Amount): map<Key, Pending> {
    if b.balance < before then s.pending - {Key(b.link, b.hash)}
    else if b.link != 0 && b.link !in net.epochs then
      s.pending[Key(a, b.link) := Pending(if b.link in s.blocks then s.blocks[b.link].block.account else 0,
                                          b.balance - before, VersionAt(s, b.link))]
    else s.pending
  }

  /** The weights as the visitor leaves them: the head's balance goes, the previous one comes back. */
  function UndoneWeights(s: Store, b: Block): map<Account, Amount> {
    var weights := AddWeight(s.weights, b.representative, 0 - b.balance);
    if b.previous == 0 then weights else AddWeight(weights, RepresentativeAt(s, b.previous), BalanceAt(s, b.previous))
  }

  /** The account entry once its head block `b` is undone; its head is zero if the account closes. */
  function UndoneInfo(s: Store, info: Info, b: Block): Info {
    Info(b.previous, RepresentativeAt(s, b.previous), info.openBlock, BalanceAt(s, b.previous),
         if info.blockCount > 0 then info.blockCount - 1 else 0, VersionAt(s, b.previous))
  }

  /**
  What `rollback_visitor::state_block` does to the head block of account `a` once
  its inner loop has ended, however it ended.
  */
  function Undone(net: Network, s: Store, a: Account): Store
    requires a in s.accounts && s.accounts[a].head in s.blocks
  {
    var info := s.accounts[a];
    var b := s.blocks[info.head].block;
    Store(
      s.blocks - {info.head},
      if b.previous == 0 then s.accounts - {a} else s.accounts[a := UndoneInfo(s, info, b)],
      UndonePending(net, s, a, b, BalanceAt(s, b.previous)),
      if b.previous == 0 then s.heights - {a} else s.heights,
      UndoneWeights(s, b),
      s.clock)
  }

  /** `store.initialize` */
  function Genesis(net: Network): Store {
    var g := net.genesis;
    Store(map[g.hash := Entry(g, 1, Details(EPOCH_0, false, false, false), 0)],
          map[g.account := Info(g.hash, g.representative, g.hash, g.balance, 1, EPOCH_0)],
          map[],
          map[g.account := 1],
          map[g.representative := g.balance],
          1)
  }

  /** What the constants of a network satisfy. */
  predicate NetworkOk(net: Network) {
    && net.genesis.previous == 0 && net.genesis.balance == GENESIS_AMOUNT
    && RealHash(net, net.genesis.hash)
    && 0 !in net.epochs
    && forall l :: l in net.epochs ==> net.epochs[l] > 0
  }

  /** A hash is neither zero nor one of the readable texts that serve as epoch links. */
  predicate RealHash(net: Network, h: Hash) {
    h != 0 && h !in net.epochs
  }
}

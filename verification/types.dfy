/**
The records that the ledger, the transaction queue and the block processor share.

Amounts, heights, times and counts are `int`; 64-bit wrap-around is written out with
`Wrap64` in the one place where it can be reached.  A transaction's ID is its body
without the signature: SHA3-256 is idealised as collision free on transactions.  A block
header carries the numeric value of its own ID, which the proof-of-work test and the chain
comparison read as a number.
*/
module Types {

  datatype Option<+T> = None | Some(value: T)

  const TWO_31: nat := 0x8000_0000
  const TWO_32: nat := 0x1_0000_0000
  const TWO_63: nat := 0x8000_0000_0000_0000
  const TWO_64: nat := 0x1_0000_0000_0000_0000
  const TWO_256: nat := 0x1_0000000000000000000000000000000000000000000000000000000000000000

  type PublicKey = nat
  type BlockID = nat

  /** Everything in a transaction but its signature: what its ID is the hash of. */
  datatype Body = Body(
    time: int,
    nonce: int,
    from: Option<PublicKey>,
    to: PublicKey,
    amount: int,
    fee: int,
    memo: string,
    matures: int,
    expires: int,
    series: int)

  type TransactionID = Body

  datatype Transaction = Transaction(body: Body, signature: string)

  function ID(tx: Transaction): TransactionID {
    tx.body
  }

  predicate IsCoinbase(tx: Transaction) {
    tx.body.from.None?
  }

  datatype BlockHeader = BlockHeader(
    id: BlockID,
    previous: BlockID,
    hashListRoot: nat,
    time: int,
    target: nat,
    chainWork: nat,
    nonce: int,
    height: int,
    transactionCount: int)

  datatype Block = Block(header: BlockHeader, txs: seq<Transaction>)

  /** A stored block and the time at which this node stored it. */
  datatype Stored = Stored(block: Block, when: int)

  type Blocks = map<BlockID, Stored>

  datatype BranchType = MAIN | SIDE | ORPHAN | UNKNOWN

  const CRUZBITS_PER_CRUZ := 100000000
  const INITIAL_COINBASE_REWARD := 50 * CRUZBITS_PER_CRUZ
  const COINBASE_MATURITY := 100
  const MAX_FUTURE_SECONDS := 2 * 60 * 60
  const MAX_MONEY := 21000000 * CRUZBITS_PER_CRUZ
  const BLOCKS_UNTIL_REWARD_HALVING := 210000
  const INITIAL_MAX_TRANSACTIONS_PER_BLOCK := 10000
  const BLOCKS_UNTIL_TRANSACTIONS_PER_BLOCK_DOUBLING := 105000
  const MAX_TRANSACTIONS_PER_BLOCK := 0x7fff_ffff
  const MAX_TRANSACTIONS_PER_BLOCK_EXCEEDED_AT_HEIGHT := 1852032
  const BLOCKS_UNTIL_NEW_SERIES := 1008
  const MAX_MEMO_LENGTH := 100
  const MAX_NUMBER := 0x1f_ffff_ffff_ffff
  const MAX_TRANSACTIONS_TO_INCLUDE_PER_BLOCK := INITIAL_MAX_TRANSACTIONS_PER_BLOCK
  const MAX_TRANSACTION_QUEUE_LENGTH := MAX_TRANSACTIONS_TO_INCLUDE_PER_BLOCK * 10
  const MIN_FEE_CRUZBITS := 1000000
  const MIN_AMOUNT_CRUZBITS := 1000000

  /** Two's complement truncation to 64 bits. */
  function Wrap64(x: int): int {
    (x + 0x8000_0000_0000_0000) % 0x1_0000_0000_0000_0000 - 0x8000_0000_0000_0000
  }

  /** The one number of 64 bits that differs by a multiple of 2^64. */
  lemma WrapIs(x: int)
    ensures 0 <= Wrap64(x) + TWO_63 < TWO_64 && (x - Wrap64(x)) % TWO_64 == 0
  {
  }
}

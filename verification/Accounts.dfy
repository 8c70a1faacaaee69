/** What the state holds: accounts and storage slots. */
module Accounts {
  type Address = nat
  type Word = nat
  type Hash = nat

  /** Hash 0 is the hash of empty code. */
  datatype Account = Account(nonce: nat, balance: nat, codeHash: Hash)

  const NewAccount := Account(0, 0, 0)

  datatype SlotId = SlotId(addr: Address, slot: Word)
}

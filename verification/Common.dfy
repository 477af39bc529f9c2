/** Types shared by the components. */
module Common {
  datatype Option<+T> = None | Some(value: T)

  /** A 20-byte account or contract address, compared for equality only. */
  type Address = nat

  /** 0x0000000000000000000000000000000000000000 */
  const ZERO_ADDRESS: Address := 0

  /** The four balances of an account, in wei. */
  datatype Balance = Balance(mtr: int, mtrg: int, mtrBounded: int, mtrgBounded: int)

  const ZERO_BALANCE := Balance(0, 0, 0, 0)

  /** An account row; of its lastUpdate block only the number matters. */
  datatype Acct = Acct(bal: Balance, lastUpdate: nat)
}

/** What several modules share: optional values, and constants of the OpenCL headers and of the ledger. */
module Common {

  datatype Option<+T> = None | Some(value: T)

  /** An OpenCL object as the runtime names it. */
  type Handle = int

  const NULL: Handle := 0
  const CL_SUCCESS: int := 0

  const TWO_128: int := 0x1_0000_0000_0000_0000_0000_0000_0000_0000
}
